# Passport validation and the combat toy, modelled in Dafny

This project models two small cores of the repository.

**Passport input validation** (`Logging/Logging/Program.cs`) is the front end of a remote-voting lookup. `Passport.CanData` accepts a series-and-number string when exactly ten UTF-16 code units are left after two steps: `Trim()` removes the surrounding white space, and `Replace(" ", "")` removes every blank. The `Passport` constructor stores the raw text it accepted. `Model.TryCreatePassport` turns the verdict into a flag, an optional passport and a `MessageToResult`. `Model.GetMessage` reads the first row of the query result and maps it to a `MessageToPassport`. All of this is pure: the module `Logging` (`logging.dfy`) holds datatypes, functions and lemmas. A .NET string is a sequence of UTF-16 code units (`Text`, a sequence of `CodeUnit`), because `Length` counts code units. So a character outside the Basic Multilingual Plane counts twice, and a lone surrogate is ordinary text. A C# `null` is an `Option` value. A thrown exception is the `Err` side of a `Result` (`wrappers.dfy`). White space is the exact set of code units .NET's `char.IsWhiteSpace` accepts, which is what `String.Trim()` removes. Only U+0020 counts as a blank for the removal step.

**The combat toy** (`Weapon/Weapon/Program.cs`) changes state in place, so the module `Combat` (`combat.dfy`) uses classes:
- `Weapon` has a fixed `damage`.
- `Player` has a `health` that `TakeDamage` lowers.
- `Bot` has a `weapon` and a stock of `bullets`; `OnSeePlayer`/`Fire` use them up.

Each C# constructor that may throw is a static method returning a `Result`. `Weapon.New` and `Player.New` test the guard and allocate only when it passes. `Bot.New` and `Bot.NewChecked` allocate the bot first, with its fields at their defaults, and then run the guard, as the C# constructor body does. A C# `int` is the 32-bit newtype `int32`, and the wrap-around of unchecked arithmetic is written out (`Wrap32`).

Verifying the Weapon code showed two faults in it (see "## Findings"). The model keeps both as written and adds a corrected version of each. The rest of the model uses the corrected version.

## Model

| member | source | states |
|---|---|---|
| `Logging.IsWhiteSpace` | Logging/Logging/Program.cs:31 | The code units `String.Trim()` removes: U+0009 to U+000D, U+0020, U+0085, U+00A0, U+1680, U+2000 to U+200A, U+2028, U+2029, U+202F, U+205F and U+3000, as .NET's `char.IsWhiteSpace` defines them. |
| `Logging.LeadingWhiteSpace` | Logging/Logging/Program.cs:31 | The count returned is the length of the white-space run at the start: that prefix is all white space, and the next code unit, if there is one, is not. |
| `Logging.TrailingStart` | Logging/Logging/Program.cs:31 | The index returned is where the white-space run at the end begins: that suffix is all white space, and the code unit before it, if there is one, is not. |
| `Logging.TrimSplitUnique` | Logging/Logging/Program.cs:31 | If `c` sits in `s` with only white space around it, and `c` neither starts nor ends with white space, then `Trim(s) == c`. |
| `Logging.Trim` | Logging/Logging/Program.cs:31 | `String.Trim()`: the result sits in `s` at the end of the leading white-space run, only white space is cut, only from the two ends, and the result neither starts nor ends with white space. |
| `Logging.TrimCharacterization` | Logging/Logging/Program.cs:31 | `c` is `s` without its surrounding white space (`IsTrimOf`) if and only if `c == Trim(s)`. |
| `Logging.RemoveSpaces` | Logging/Logging/Program.cs:31 | The result holds every code unit of the input except U+0020, as a multiset, and its length is the input's length minus the number of blanks. |
| `Logging.RemoveSpacesAppend` | Logging/Logging/Program.cs:31 | Removing blanks from `a + b` gives the result for `a` followed by the result for `b`, so the order of the other code units is kept. |
| `Logging.RemoveSpacesIdempotent` | Logging/Logging/Program.cs:31 | Removing blanks a second time changes nothing. |
| `Logging.Normalize` | Logging/Logging/Program.cs:31 | The text `CanData` measures, `Trim().Replace(" ", "")`, holds no blank, takes no code unit that was not in the input, and neither starts nor ends with white space. |
| `Logging.NormalizeCommutes` | Logging/Logging/Program.cs:31 | Trimming and then removing blanks gives the same text as removing blanks and then trimming. |
| `Logging.CanDataMeaning` | Logging/Logging/Program.cs:26-32 | For any `c` that is `s` without its surrounding white space, `CanData(s)` succeeds, and it is true exactly when `c` has ten UTF-16 code units other than blanks. |
| `Logging.CanDataIgnoresSpace` | Logging/Logging/Program.cs:31 | Inserting one blank anywhere in a text, or removing one, does not change the verdict of `CanData`. |
| `Logging.CanDataIgnoresAllSpaces` | Logging/Logging/Program.cs:31 | `CanData` gives the same verdict on a text with all its blanks removed. |
| `Logging.CanData` | Logging/Logging/Program.cs:26-32 | A null argument, and only a null argument, gives ArgumentNullException("data"). Every non-null text yields a verdict. |
| `Logging.NewPassport` | Logging/Logging/Program.cs:13-24 | Null gives ArgumentNullException("rawData") before anything else. Construction succeeds if and only if `CanData` is true, and the passport then holds the raw text unchanged. A non-null text that fails gives InvalidOperationException with the invalid-input message. |
| `Logging.TryCreatePassport` | Logging/Logging/Program.cs:144-161 | Null, and only null, gives ArgumentNullException("text"). Otherwise the flag is true if and only if `CanData(text)` is true. On success the passport holds `text` and the message is `none`. On failure there is no passport, and the message is `InvalidInput` for the empty text and `EnteringPassportData` for any other text. |
| `Logging.ToBoolean` | Logging/Logging/Program.cs:169 | Convert.ToBoolean of a cell fails only on a database null. It is true exactly for `true`, a non-zero integer and a non-zero real. |
| `Logging.GetMessage` | Logging/Logging/Program.cs:163-178 | No rows gives `PassportNotFound`. `AccessGranted` comes exactly when column 1 of the first row converts to true, and `AccessNotGranted` exactly when it converts to false. The call fails exactly when that cell is missing or a database null. A success is never `none`. |
| `Logging.GetMessageFirstRowOnly` | Logging/Logging/Program.cs:167-170 | Rows after the first do not affect the result. |
| `Combat.Wrap32` | Weapon/Weapon/Program.cs:52 | The 32-bit result of unchecked `int` arithmetic is congruent to the exact result modulo 2^32. It equals the exact result when that result is in range. |
| `Combat.DamageDealt` | Weapon/Weapon/Program.cs:51-52 | `Math.Max(damage, 0)`: a positive damage is dealt in full, and zero or negative damage deals nothing. |
| `Combat.HealthAfterHitAsWritten` | Weapon/Weapon/Program.cs:52 | As written: the new health is either exactly `health - max(damage, 0)` or, after wrapping around, that value plus 2^32. |
| `Combat.HealthAfterHit` | Weapon/Weapon/Program.cs:49-53 | The corrected hit never raises health. When no overflow happens, it lowers health by exactly `max(damage, 0)`. Otherwise it stops at int.MinValue. |
| `Combat.AsWrittenHitRaisesHealthOnOverflow` | Weapon/Weapon/Program.cs:52 | As written, a hit leaves health higher than before exactly when `health - max(damage, 0)` falls below int.MinValue. |
| `Combat.AsWrittenHitCanRaiseHealth` | Weapon/Weapon/Program.cs:52 | As written, a player at -2147483646 hit for 2147483647 ends at health 3. |
| `Combat.HitsAgreeWithoutOverflow` | Weapon/Weapon/Program.cs:49-53 | Without overflow, the written and the corrected hit agree, and both lower health by exactly `max(damage, 0)`. Negative damage changes nothing, and health may go below zero. |
| `Combat.BulletsAfterSighting` | Weapon/Weapon/Program.cs:77-86 | One sighting never adds bullets. The stock stays the same exactly when no bullet is left, and a stock that is not negative stays that way. |
| `Combat.SightingsNeverOverdraw` | Weapon/Weapon/Program.cs:75-87 | From a stock of `b >= 0` bullets, `n` sightings in a row leave `max(b - n, 0)` bullets, which is never negative. They fire `min(b, n)` shots, which is at most `b`. |
| `Combat.Weapon.New` | Weapon/Weapon/Program.cs:18-30 | Construction succeeds if and only if `damage > 0`. It then holds that damage in a `const` field, which cannot change. Otherwise it fails with InvalidOperationException. |
| `Combat.Weapon.constructor` | Weapon/Weapon/Program.cs:20-22 | Past the guard, the weapon holds the given damage. |
| `Combat.Player.New` | Weapon/Weapon/Program.cs:37-47 | Construction succeeds if and only if `health > 0`, and the player then has that health. Otherwise it fails with InvalidOperationException. |
| `Combat.Player.constructor` | Weapon/Weapon/Program.cs:39-41 | Past the guard, the player holds the given health. |
| `Combat.Player.TakeDamage` | Weapon/Weapon/Program.cs:49-53 | As written: the new health is the old health minus `max(damage, 0)`, wrapped to 32 bits. |
| `Combat.Player.TakeDamageSaturating` | Weapon/Weapon/Program.cs:49-53 | Corrected: the new health is `HealthAfterHit` of the old health, which is never higher than before. |
| `Combat.Bot.Allocate` | Weapon/Weapon/Program.cs:58-59 | A freshly allocated bot has its fields at their defaults: no weapon and 0 bullets. |
| `Combat.Bot.New` | Weapon/Weapon/Program.cs:61-73 | As written: the guard reads the field `_bullets`, which is still 0, so construction fails with InvalidOperationException for every argument. |
| `Combat.Bot.NewChecked` | Weapon/Weapon/Program.cs:61-73 | Corrected: construction succeeds if and only if `bulletsCount > 0`. The bot then holds the weapon and that many bullets, and satisfies `Valid()`. |
| `Combat.Bot.OnSeePlayer` | Weapon/Weapon/Program.cs:75-81 | Corrected (the hit saturates): the bullets become `BulletsAfterSighting` of the old stock. With bullets left, the player takes one corrected hit (`HealthAfterHit`) of the weapon's damage and one bullet is spent. With none, neither the bot nor the player changes. `Valid()` (a weapon and bullets >= 0) is kept. |
| `Combat.Bot.Fire` | Weapon/Weapon/Program.cs:83-87 | Corrected (the hit saturates): called only with bullets left, as `OnSeePlayer` does. The player takes one hit `HealthAfterHit` of the weapon's damage, the bullets drop by exactly one, the weapon stays the same, and `Valid()` is kept. |
| `Combat.MainAsWritten` | Weapon/Weapon/Program.cs:7-13 | `Main` ends with InvalidOperationException raised by the bot's construction on line 11. |
| `Combat.MainCorrected` | Weapon/Weapon/Program.cs:7-13 | With the corrected bot, `Main`'s one sighting takes the player from 10 to 5 and leaves 2 bullets. |

## Findings

| source | as written | input that shows it | evidently intended | confidence | as-written member | corrected member |
|---|---|---|---|---|---|---|
| Weapon/Weapon/Program.cs:63 | `if (_bullets > 0)` tests the field, which is still 0 while the constructor runs | every call, e.g. `new Bot(weapon, bulletsCount: 3)` on line 11, throws InvalidOperationException | test the argument: `if (bulletsCount > 0)` | high; not executed | `Combat.Bot.New` (also `Combat.MainAsWritten`) | `Combat.Bot.NewChecked` |
| Weapon/Weapon/Program.cs:52 | `_health -= Math.Max(damage, 0)` is unchecked 32-bit subtraction, which wraps below int.MinValue | start at health 1, take damage 2147483647 (health -2147483646), then take 2147483647 again: health becomes 3 | a hit never raises health (here: stop at int.MinValue) | medium (assumes the project does not turn on checked arithmetic); not executed | `Combat.Player.TakeDamage`, `Combat.AsWrittenHitCanRaiseHealth`, `Combat.AsWrittenHitRaisesHealthOnOverflow` | `Combat.Player.TakeDamageSaturating`, `Combat.HealthAfterHit` |

## Left out

- The warehouse/cart/order reservation engine of the "internet store" project is not part of this model.
- `View`, `Presenter`, `TextBox` and the display strings of `MessageStorage` (Logging/Logging/Program.cs:35-106, 197-226, 254-257) are presentation and wiring. Only the invalid-input message is kept, because the Passport constructor puts it in its exception.
- `Model.TryFindPassportToBD`, `CreateConnection` and `CreateAdapter` (Logging/Logging/Program.cs:119-142, 180-194) are SQLite access, file paths and reflection. The query result reaches the model as a sequence of rows given to `GetMessage`. The exception-to-`none` mapping of `TryFindPassportToBD` is left out with them.
- `HashCreator.ComputeSha256Hash` and the `Model` constructor's null check wrap library calls and wiring.
- Logging.Cell: a cell is a boolean, an integer, a real or a database null. Convert.ToBoolean of a text cell is not modelled, because it depends on .NET's case-insensitive parsing of "True"/"False". A floating-point NaN or infinity is not modelled either, because Dafny's `real` has no such values (Convert.ToBoolean gives true for them).
- Combat: null `Weapon` or `Player` references, and the NullReferenceException they would cause in `Fire`, are not modelled. The model's references are non-null.
- Combat.Bot.Fire: the player's hit is the corrected `TakeDamageSaturating`, which stops at int.MinValue. The source's `Fire` calls the wrapping `TakeDamage` (see "## Findings"). They differ only when the health would fall below int.MinValue: a player at health 1 hit twice for 2147483647 ends at 3 in the source and at int.MinValue here.
- Combat.Bot.OnSeePlayer: its hit goes through `Fire`, so it is the same corrected, saturating hit, with the same one difference from the source.
- Combat: the InvalidOperationException of the Weapon code carries no message, so it is the single value `InvalidOperation`.
