/** Passport input validation of the remote-voting client: the `Passport` value,
    the `CanData` format check and the two decision functions of `Model`. */
module Logging {
  import opened Wrappers

  /** The exceptions the modelled code raises, with the parameter name or message it gives them. */
  datatype Failure =
    | ArgumentNull(paramName: string)
    | InvalidOperation(message: string)
    | IndexOutOfRange  // a row of the query result with fewer than two columns
    | InvalidCast      // Convert.ToBoolean applied to a database null

  /** Number of code units a passport series and number has once blanks are gone. */
  const PassportDataLength: nat := 10

  /** A .NET `char`: one UTF-16 code unit. A .NET string is a sequence of them, and its
      `Length` counts code units, so a character outside the BMP counts twice and a lone
      surrogate is a string like any other. */
  newtype CodeUnit = x: int | 0 <= x < 0x10000

  type Text = seq<CodeUnit>

  /** U+0020, the only code unit `Replace(" ", string.Empty)` removes. */
  const Blank: CodeUnit := 0x20

  /** The message of the exception a rejected passport string raises (MessageStorage.InvalidInput). */
  const InvalidInputText: string := "Неверный формат серии или номера паспорта"

  datatype MessageToPassport = none | AccessGranted | AccessNotGranted | PassportNotFound

  datatype MessageToResult = none | EnteringPassportData | InvalidInput

  // ---------------------------------------------------------------------------
  // White space, String.Trim and String.Replace(" ", "")
  // ---------------------------------------------------------------------------

  /** The code units .NET's char.IsWhiteSpace accepts, which are the ones String.Trim() removes.
      Every one of them is a single code unit (none is a surrogate). */
  predicate IsWhiteSpace(c: CodeUnit) {
    var n := c as int;
    (0x09 <= n <= 0x0D) || n == 0x20 || n == 0x85 || n == 0xA0 || n == 0x1680
    || (0x2000 <= n <= 0x200A) || n == 0x2028 || n == 0x2029 || n == 0x202F
    || n == 0x205F || n == 0x3000
  }

  predicate AllWhiteSpace(s: Text) {
    forall k :: 0 <= k < |s| ==> IsWhiteSpace(s[k])
  }

  /** Length of the white-space run at the start of `s`. */
  function LeadingWhiteSpace(s: Text): (k: nat)
    ensures k <= |s| && AllWhiteSpace(s[..k])
    ensures k < |s| ==> !IsWhiteSpace(s[k])
  {
    if s == [] || !IsWhiteSpace(s[0]) then 0
    else
      var k' := LeadingWhiteSpace(s[1..]);
      assert forall m :: 1 <= m < 1 + k' ==> s[m] == s[1..][..k'][m - 1];
      1 + k'
  }

  /** Index at which the white-space run at the end of `s` begins. */
  function TrailingStart(s: Text): (j: nat)
    ensures j <= |s| && AllWhiteSpace(s[j..])
    ensures 0 < j ==> !IsWhiteSpace(s[j - 1])
  {
    if s == [] || !IsWhiteSpace(s[|s| - 1]) then |s|
    else
      var j := TrailingStart(s[..|s| - 1]);
      assert forall m :: j <= m < |s| - 1 ==> s[m] == s[..|s| - 1][j..][m - j];
      j
  }

  /** String.Trim(): cuts the leading run of white space, then the trailing one. */
  function Trim(s: Text): (r: Text)
    ensures TrimSplit(r, s, LeadingWhiteSpace(s))
  {
    var t := s[LeadingWhiteSpace(s)..];
    t[..TrailingStart(t)]
  }

  /** `c` is the part of `s` at index `i` that is left once white space is cut from both ends:
      only white space around it, and `c` itself neither starts nor ends with white space. */
  predicate TrimSplit(c: Text, s: Text, i: nat) {
    i + |c| <= |s| && s[i..i + |c|] == c
    && AllWhiteSpace(s[..i]) && AllWhiteSpace(s[i + |c|..])
    && (c != [] ==> !IsWhiteSpace(c[0]) && !IsWhiteSpace(c[|c| - 1]))
  }

  /** Independent description of trimming: `c` is `s` without its surrounding white space. */
  ghost predicate IsTrimOf(c: Text, s: Text) {
    exists i: nat :: TrimSplit(c, s, i)
  }

  /** String.Replace(" ", string.Empty): drops every U+0020 and keeps everything else, in order. */
  function RemoveSpaces(s: Text): (r: Text)
    ensures multiset(r) == multiset(s)[Blank := 0]
    ensures |r| == |s| - multiset(s)[Blank]
  {
    if s == [] then []
    else
      assert s == [s[0]] + s[1..];
      (if s[0] == Blank then [] else [s[0]]) + RemoveSpaces(s[1..])
  }

  /** What CanData measures: the trimmed text with all blanks removed. It holds no blank,
      takes nothing that was not in `s`, and neither starts nor ends with white space. */
  function Normalize(s: Text): (r: Text)
    ensures forall k :: 0 <= k < |r| ==> r[k] != Blank
    ensures multiset(r) <= multiset(s)
    ensures r != [] ==> !IsWhiteSpace(r[0]) && !IsWhiteSpace(r[|r| - 1])
  {
    TrimmedWithoutBlanks(s);
    RemoveSpaces(Trim(s))
  }

  lemma TrimmedWithoutBlanks(s: Text)
    ensures var r := RemoveSpaces(Trim(s));
      (forall k :: 0 <= k < |r| ==> r[k] != Blank)
      && multiset(r) <= multiset(s)
      && (r != [] ==> !IsWhiteSpace(r[0]) && !IsWhiteSpace(r[|r| - 1]))
  {
    var c := Trim(s);
    TrimKeepsContents(s);
    RemoveSpacesLeavesNoBlank(c);
    assert multiset(RemoveSpaces(c)) <= multiset(c);
    if c != [] {
      RemoveSpacesKeepsEnds(c);
    }
  }

  lemma TrimKeepsContents(s: Text)
    ensures multiset(Trim(s)) <= multiset(s)
  {
    var c, i := Trim(s), LeadingWhiteSpace(s);
    assert s == s[..i] + c + s[i + |c|..];
  }

  lemma RemoveSpacesLeavesNoBlank(s: Text)
    ensures forall k :: 0 <= k < |RemoveSpaces(s)| ==> RemoveSpaces(s)[k] != Blank
  {
    var r := RemoveSpaces(s);
    forall k | 0 <= k < |r| ensures r[k] != Blank {
      assert r[k] in multiset(r);
    }
  }

  /** The trimming decomposition is unique: whatever `c` sits in `s` with only white space
      around it and no white space at its ends is what Trim returns. */
  lemma TrimSplitUnique(c: Text, s: Text, i: nat)
    requires TrimSplit(c, s, i)
    ensures Trim(s) == c
  {
  }

  /** Trim(s) is the one and only text that `s` is made of plus surrounding white space. */
  lemma TrimCharacterization(c: Text, s: Text)
    ensures IsTrimOf(c, s) <==> c == Trim(s)
  {
    if IsTrimOf(c, s) {
      var i: nat :| TrimSplit(c, s, i);
      TrimSplitUnique(c, s, i);
    }
  }

  /** Text between two runs of white space, neither starting nor ending with white space,
      is what trimming the whole leaves. */
  lemma TrimSplitOfConcat(p: Text, c: Text, q: Text)
    requires AllWhiteSpace(p) && AllWhiteSpace(q)
    requires c != [] ==> !IsWhiteSpace(c[0]) && !IsWhiteSpace(c[|c| - 1])
    ensures TrimSplit(c, p + c + q, |p|)
  {
  }

  /** Removing blanks works piecewise, so it keeps the order of the other code units. */
  lemma {:induction false} RemoveSpacesAppend(a: Text, b: Text)
    ensures RemoveSpaces(a + b) == RemoveSpaces(a) + RemoveSpaces(b)
  {
    if a == [] {
      assert a + b == b;
    } else {
      assert (a + b)[0] == a[0];
      assert (a + b)[1..] == a[1..] + b;
      RemoveSpacesAppend(a[1..], b);
    }
  }

  lemma RemoveSpacesKeepsWhiteSpace(s: Text)
    requires AllWhiteSpace(s)
    ensures AllWhiteSpace(RemoveSpaces(s))
  {
  }

  /** A text that neither starts nor ends with a blank keeps its first and last code unit. */
  lemma RemoveSpacesKeepsEnds(c: Text)
    requires c != [] && c[0] != Blank && c[|c| - 1] != Blank
    ensures var r := RemoveSpaces(c); r != [] && r[0] == c[0] && r[|r| - 1] == c[|c| - 1]
  {
    assert c == c[..|c| - 1] + [c[|c| - 1]];
    RemoveSpacesAppend(c[..|c| - 1], [c[|c| - 1]]);
  }

  lemma RemoveSpacesAppend3(p: Text, c: Text, q: Text)
    ensures RemoveSpaces(p + c + q) == RemoveSpaces(p) + RemoveSpaces(c) + RemoveSpaces(q)
  {
    RemoveSpacesAppend(p + c, q);
    RemoveSpacesAppend(p, c);
  }

  /** A text cut in three around index i and i + |c|. */
  lemma SplitThree(s: Text, c: Text, i: nat)
    requires i + |c| <= |s| && s[i..i + |c|] == c
    ensures s == s[..i] + c + s[i + |c|..]
  {
  }

  /** Removing blanks keeps a trimming decomposition: the core with its blanks removed is
      what trimming the text with its blanks removed leaves. */
  lemma RemoveSpacesKeepsTrimSplit(c: Text, s: Text, i: nat)
    requires TrimSplit(c, s, i)
    ensures TrimSplit(RemoveSpaces(c), RemoveSpaces(s), |RemoveSpaces(s[..i])|)
  {
    var p, q := s[..i], s[i + |c|..];
    SplitThree(s, c, i);
    RemoveSpacesAppend3(p, c, q);
    RemoveSpacesKeepsWhiteSpace(p);
    RemoveSpacesKeepsWhiteSpace(q);
    if c != [] {
      RemoveSpacesKeepsEnds(c);
    }
    TrimSplitOfConcat(RemoveSpaces(p), RemoveSpaces(c), RemoveSpaces(q));
  }

  /** Blanks are white space, so removing them before or after trimming gives the same text. */
  lemma NormalizeCommutes(s: Text)
    ensures Normalize(s) == Trim(RemoveSpaces(s))
  {
    var i := LeadingWhiteSpace(s);
    RemoveSpacesKeepsTrimSplit(Trim(s), s, i);
    TrimSplitUnique(RemoveSpaces(Trim(s)), RemoveSpaces(s), |RemoveSpaces(s[..i])|);
  }

  /** CanData holds exactly when the trimmed text has PassportDataLength code units other than blanks. */
  lemma CanDataMeaning(c: Text, s: Text)
    requires IsTrimOf(c, s)
    ensures CanData(Some(s)) == Ok(|c| - multiset(c)[Blank] == PassportDataLength)
  {
    TrimCharacterization(c, s);
  }

  lemma RemoveSpacesDropsBlank(a: Text, b: Text)
    ensures RemoveSpaces(a + [Blank] + b) == RemoveSpaces(a + b)
  {
    RemoveSpacesAppend(a + [Blank], b);
    RemoveSpacesAppend(a, [Blank]);
    RemoveSpacesAppend(a, b);
  }

  /** Inserting a blank anywhere, or removing one, does not change the verdict of CanData. */
  lemma CanDataIgnoresSpace(a: Text, b: Text)
    ensures CanData(Some(a + [Blank] + b)) == CanData(Some(a + b))
  {
    NormalizeCommutes(a + [Blank] + b);
    NormalizeCommutes(a + b);
    RemoveSpacesDropsBlank(a, b);
  }

  lemma {:induction false} RemoveSpacesIdempotent(s: Text)
    ensures RemoveSpaces(RemoveSpaces(s)) == RemoveSpaces(s)
  {
    if s != [] {
      RemoveSpacesIdempotent(s[1..]);
      RemoveSpacesAppend(if s[0] == Blank then [] else [s[0]], RemoveSpaces(s[1..]));
    }
  }

  /** CanData gives the same verdict on a text and on that text with all its blanks removed. */
  lemma CanDataIgnoresAllSpaces(s: Text)
    ensures CanData(Some(RemoveSpaces(s))) == CanData(Some(s))
  {
    NormalizeCommutes(s);
    NormalizeCommutes(RemoveSpaces(s));
    RemoveSpacesIdempotent(s);
  }

  // ---------------------------------------------------------------------------
  // Passport
  // ---------------------------------------------------------------------------

  /** A passport holds the text it was built from; `Data` is get-only, so it never changes. */
  datatype Passport = Passport(data: Text)

  /** Passport.CanData: null is an ArgumentNullException; otherwise whether the trimmed,
      blank-free text has exactly PassportDataLength code units. */
  function CanData(data: Option<Text>): (r: Result<bool, Failure>)
    ensures data.None? <==> r == Err(ArgumentNull("data"))
    ensures data.Some? ==> r.Ok?
  {
    match data
    case None => Err(ArgumentNull("data"))
    case Some(s) => Ok(|RemoveSpaces(Trim(s))| == PassportDataLength)
  }

  /** The Passport constructor: null first, then CanData; the raw text is stored as given. */
  function NewPassport(rawData: Option<Text>): (r: Result<Passport, Failure>)
    ensures rawData.None? ==> r == Err(ArgumentNull("rawData"))
    ensures r.Ok? <==> CanData(rawData) == Ok(true)
    ensures r.Ok? ==> r.value.data == rawData.value
    ensures rawData.Some? && r.Err? ==> r.error == InvalidOperation(InvalidInputText)
  {
    match rawData
    case None => Err(ArgumentNull("rawData"))
    case Some(s) =>
      if CanData(rawData) == Ok(true) then Ok(Passport(s))
      else Err(InvalidOperation(InvalidInputText))
  }

  /** The three out-values of Model.TryCreatePassport: the returned flag, the passport and the message. */
  datatype Creation = Creation(created: bool, passport: Option<Passport>, message: MessageToResult)

  /** Model.TryCreatePassport. */
  function TryCreatePassport(text: Option<Text>): (r: Result<Creation, Failure>)
    ensures text.None? <==> r == Err(ArgumentNull("text"))
    ensures text.Some? ==> r.Ok?
    ensures r.Ok? ==> (r.value.created <==> CanData(text) == Ok(true))
    ensures r.Ok? && r.value.created ==>
      r.value.passport == Some(Passport(text.value)) && r.value.message == MessageToResult.none
    ensures r.Ok? && !r.value.created ==>
      r.value.passport == None
      && r.value.message == (if text.value == [] then MessageToResult.InvalidInput
                             else MessageToResult.EnteringPassportData)
  {
    match text
    case None => Err(ArgumentNull("text"))
    case Some(s) =>
      if CanData(text) == Ok(true) then
        match NewPassport(text)
        case Ok(p) => Ok(Creation(true, Some(p), MessageToResult.none))
        case Err(e) => Err(e)
      else
        Ok(Creation(false, None,
                    if s == [] then MessageToResult.InvalidInput
                    else MessageToResult.EnteringPassportData))
  }

  // ---------------------------------------------------------------------------
  // Model.GetMessage over the rows of the query result
  // ---------------------------------------------------------------------------

  /** The values a cell of the passports table can hold. */
  datatype Cell = Boolean(b: bool) | Integer(i: int) | Real(x: real) | DbNull

  type Row = seq<Cell>

  /** Convert.ToBoolean on a cell value: a boolean as is, a number by being non-zero,
      and a database null is an InvalidCastException. */
  function ToBoolean(cell: Cell): (r: Result<bool, Failure>)
    ensures r.Err? <==> cell == DbNull
    ensures r == Ok(true) <==>
      cell == Boolean(true) || (cell.Integer? && cell.i != 0) || (cell.Real? && cell.x != 0.0)
  {
    match cell
    case Boolean(b) => Ok(b)
    case Integer(i) => Ok(i != 0)
    case Real(x) => Ok(x != 0.0)
    case DbNull => Err(InvalidCast)
  }

  /** Model.GetMessage: no row means the passport is unknown; otherwise column 1 of the
      first row decides whether access was granted. */
  function GetMessage(rows: seq<Row>): (r: Result<MessageToPassport, Failure>)
    ensures rows == [] ==> r == Ok(PassportNotFound)
    ensures r.Ok? ==> r.value != MessageToPassport.none
    ensures r == Ok(AccessGranted) <==>
      rows != [] && |rows[0]| > 1 && ToBoolean(rows[0][1]) == Ok(true)
    ensures r == Ok(AccessNotGranted) <==>
      rows != [] && |rows[0]| > 1 && ToBoolean(rows[0][1]) == Ok(false)
    ensures r.Err? <==> rows != [] && (|rows[0]| <= 1 || rows[0][1] == DbNull)
  {
    if |rows| > 0 then
      if |rows[0]| <= 1 then Err(IndexOutOfRange)
      else
        match ToBoolean(rows[0][1])
        case Ok(isConvert) => Ok(if isConvert then AccessGranted else AccessNotGranted)
        case Err(e) => Err(e)
    else
      Ok(PassportNotFound)
  }

  /** Only the first row of the query result is looked at. */
  lemma GetMessageFirstRowOnly(rows: seq<Row>, more: seq<Row>)
    requires rows != []
    ensures GetMessage([rows[0]] + more) == GetMessage(rows)
  {
  }
}
