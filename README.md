# pyardrone configuration cache and AT command table, in Dafny

This project models two pieces of the client-side protocol layer of pyardrone, a Python client for the AR.Drone.

**The configuration cache** (`pyardrone/config.py`):

- `unpack_value` decodes one raw configuration value. It tries, in order:
  - `TRUE`/`FALSE`;
  - a brace list, whose whitespace-separated items are decoded by the same rules;
  - all-digit text;
  - a float;
  - otherwise, the text itself.
- `iter_config_file` turns a dump of `name = value` lines into (name, value) pairs. It aborts on the first line that does not split in two.
- `LazyConfigDict` is the base layer. It fetches the raw configuration from its owner on the first read and starts over when cleared.
- `Config` lays a dictionary of pending writes over that base layer. Each write is stored and sent to the drone as one `CONFIG` command.
- `ConfigCategory` turns `category.option` into the flat key `"category:option"`.

**The AT command table** (`pyardrone/at/__init__.py`):

- It declares nine commands: `REF`, `PCMD`, `PCMD_MAG`, `FTRIM`, `CONFIG`, `CONFIG_IDS`, `COMWDG`, `CALIB` and `CTRL`.
- For each command it gives the typed arguments in declaration order, with their defaults.
- `REF`, `PCMD` and `CTRL` also declare flag or mode enumerations. The flag values are built with `bits(*positions)`, the OR of `1 << p`.

## Files

| file | module | contents |
|---|---|---|
| `wrappers.dfy` | `Wrappers` | `Option` and `Result` |
| `text.dfy` | `PyText` | the Python string operations the decoder relies on: `str.split()`, `str.splitlines()`, `str.split(sep)`, `str.isdigit()` and `int()` on digit text, with the splitters and `int()` paired with their round trips |
| `config_values.dfy` | `ConfigValues` | `unpack_value`, `iter_config_file`, and what the decoder makes of a well-formed or a broken dump |
| `config_cache.dfy` | `ConfigCache` | the owner (a stand-in for the drone), `LazyConfigDict`, `Config`, `ConfigCategory` |
| `bit_flags.dfy` | `BitFlags` | `bits` as the OR of powers of two, with bitwise OR defined digit by digit |
| `at_commands.dfy` | `AtCommands` | the command table as immutable descriptors |
| `at_command_facts.dfy` | `AtCommandFacts` | the facts proved about the table |

How the model is built:

- Python's `float()` is not modelled. Whether a text parses as a float is the parameter `isFloat`, and a decoded float keeps its literal text.
- The owner's `get_raw_config` answer is a field of the `Owner` class: `Some(text)`, or `None` when the call raises. The owner counts the fetches and logs every command sent.
- The `*WellFormed` and `PcmdMagDefaultsTrail` lemmas are table consistency checks. The declarations imply them (distinct names, defaults only on numeric arguments, an Int32 default in the signed 32-bit range, defaults after required arguments); the source does not state them as promises.
- The base layer's contents after a fetch are specified by the function `ConfigCache.Retrieval`. The imperative `Retrieve` method is proved against it, and the lemmas next to `Retrieval` state what it yields for well-formed and broken dumps.

Three behaviours of the code that the model keeps and proves:

- **A failed fetch or parse is not retried.** `retrieve` sets `retrieved` before it asks the owner (`pyardrone/config.py:63`), so after a failure the next read does not fetch again: it looks the key up in whatever the layer holds and raises a KeyError if it is absent. `dict.update` consumes the generator pair by pair, so the pairs from the lines before a malformed line are kept (`ConfigCache.RetrievalKeepsPrefix`).
- **Brace lists nest only when the inner list holds no whitespace.** The code cuts the inner text at whitespace before it decodes the items (`pyardrone/config.py:78`). So `"{{1} 2}"` gives `[[1], 2]` (`ConfigValues.UnpackNestedCompact`), but in `"{{1 2} 3}"` the items `"{1"` and `"2}"` become text (`ConfigValues.UnpackNestedSpaced`).
- **A blank line aborts the parse.** `"".split(" = ")` is `[""]`, one part, so unpacking it into a name and a value raises (`pyardrone/config.py:90`), and the parse stops there like at any other malformed line (`ConfigValues.BlankLineAborts`).

## Model

| member | source | states |
|---|---|---|
| PyText.SplitWhitespace | pyardrone/config.py:78 | `str.split()`: every token is non-empty, free of whitespace and no longer than the text; there is no token exactly when the text is all whitespace (the empty text included) |
| PyText.OneToken | pyardrone/config.py:78 | text without whitespace is its own single token |
| PyText.SkipLeading | pyardrone/config.py:78 | whitespace before the text produces no token |
| PyText.TokenThenRun | pyardrone/config.py:78 | a token followed by a run of whitespace of any length is the first token, and the split goes on after the run |
| PyText.SplitJoinRuns | pyardrone/config.py:78 | splitting non-empty, whitespace-free tokens laid out with any runs of whitespace (non-empty between two tokens, optional at either end) gives the tokens back |
| PyText.SplitJoinSpaced | pyardrone/config.py:78 | splitting on whitespace recovers any list of non-empty, whitespace-free tokens joined by single spaces |
| PyText.SplitLines | pyardrone/config.py:89 | `str.splitlines()`: no line contains a line break, and only the empty text has no line |
| PyText.SplitLinesOneLine | pyardrone/config.py:89 | text without a line break, such as a last line with no break after it, is one line |
| PyText.SplitLinesStep | pyardrone/config.py:89 | a line ended by "\n" is the first line, and the split goes on after the break |
| PyText.SplitLinesCrLfStep | pyardrone/config.py:89 | a line ended by "\r\n" is the first line: the pair is one boundary, not two |
| PyText.SplitJoinLines | pyardrone/config.py:89 | splitting lines recovers any list of break-free lines each followed by a newline; no trailing empty line appears |
| PyText.FindFrom | pyardrone/config.py:90 | the result is the first position at or after `k` where the separator occurs, or nothing when it occurs nowhere from `k` on |
| PyText.SplitOn | pyardrone/config.py:90 | `str.split(sep)` yields at least one part |
| PyText.JoinSplitOn | pyardrone/config.py:90 | joining the parts of `str.split(sep)` with `sep` gives back the text |
| PyText.SplitOnOnce | pyardrone/config.py:90 | `head + sep + tail` splits into exactly `[head, tail]` when `sep` starts neither inside `head` nor anywhere in `tail` |
| PyText.Decimal | pyardrone/config.py:79-80 | the decimal text of a natural number is all digits |
| PyText.DecimalValue | pyardrone/config.py:80 | `int()` on digit text; for text without a leading zero the number read is positive and its decimal text is the text itself, so `str(int(s)) == s` |
| PyText.DecimalRoundTrip | pyardrone/config.py:79-80 | `int()` of the decimal text of `n` is `n` |
| PyText.LeadingZero | pyardrone/config.py:79-80 | a leading zero does not change the value `int()` reads |
| ConfigValues.Unpack | pyardrone/config.py:72-85 | the result is `True` exactly for "TRUE" and `False` exactly for "FALSE"; a list only comes from braced text; an int comes from all-digit text and is non-negative; the result is a float exactly when the text is neither a boolean, nor braced, nor all digits, and `float()` accepts it, and the float keeps the text; a text result is the input itself, and only arises when `float()` rejects it after the earlier rules all fail |
| ConfigValues.UnpackBooleans | pyardrone/config.py:73-76 | "TRUE" and "FALSE" decode to the booleans, whatever `float()` would say |
| ConfigValues.UnpackList | pyardrone/config.py:77-78 | a braced list of non-empty, whitespace-free items, laid out with any runs of whitespace between them and optional whitespace inside the braces, decodes to the list of the items' decodings, in order |
| ConfigValues.UnpackSpacedList | pyardrone/config.py:77-78 | the single-space layout: a braced list of items joined by single spaces decodes to the list of their decodings |
| ConfigValues.UnpackPairWith | pyardrone/config.py:77-80 | two decimal numbers between braces, with any whitespace runs around and between them, decode to the list of the two numbers |
| ConfigValues.UnpackPadded | pyardrone/config.py:77-80 | padding inside the braces and a longer run between items make no difference: "{ m  n }" decodes to [m, n] |
| ConfigValues.UnpackTabbed | pyardrone/config.py:77-80 | a tab separates like a space: "{m\tn}" decodes to [m, n] |
| ConfigValues.UnpackEmptyList | pyardrone/config.py:77-78 | "{}" decodes to the empty list |
| ConfigValues.UnpackNumberList | pyardrone/config.py:77-80 | a braced list of decimal numbers decodes to the list of those numbers (so "{1 2 3}" gives [1, 2, 3]) |
| ConfigValues.UnpackSingleton | pyardrone/config.py:77-80 | "{1}" decodes to [1] |
| ConfigValues.UnpackNestedCompact | pyardrone/config.py:77-78 | a nested list without inner whitespace decodes recursively: "{{1} 2}" gives [[1], 2] |
| ConfigValues.UnpackNestedSpaced | pyardrone/config.py:77-85 | items are cut at whitespace first, so "{{1 2} 3}" gives the texts "{1" and "2}" and the number 3 |
| ConfigValues.UnpackDecimal | pyardrone/config.py:79-80 | the decimal text of any natural number decodes to that number, and `float()` is never consulted |
| ConfigValues.UnpackDigits | pyardrone/config.py:79-80 | any all-digit text decodes to its decimal reading, leading zeros included |
| ConfigValues.UnpackSigned | pyardrone/config.py:79-85 | "-n" is never an int: it is a float if `float()` accepts it and the text itself otherwise |
| ConfigValues.UnpackFallback | pyardrone/config.py:81-85 | text that no earlier rule matches and that `float()` rejects comes back unchanged |
| ConfigValues.UnpackFloat | pyardrone/config.py:81-83 | text that is neither a boolean, nor braced, nor all digits, and that `float()` accepts, decodes to a float: the float rule comes before the text fallback |
| ConfigValues.UnpackTextExamples | pyardrone/config.py:81-85 | "" and "hello" come back as themselves when `float()` rejects them |
| ConfigValues.IterLines | pyardrone/config.py:88-91 | at most one pair per line; with no failure, exactly one pair per line; on a failure, the failing line is the first one not yielded and it does not split into exactly two parts |
| ConfigValues.IterLinesPairs | pyardrone/config.py:88-91 | pair `i` is the name and the decoded value of line `i`, and every yielded line splits into exactly two parts |
| ConfigValues.IterConfigFile | pyardrone/config.py:88-91 | `iter_config_file`: pair `i` is the name and the decoded value of line `i`; with no failure every line yields; on a failure, the reported line is the first one not yielded and it does not split into exactly two parts |
| ConfigValues.SplitDumpLine | pyardrone/config.py:90 | a `name = value` line with no `=` in the name and no " = " in the value splits into exactly its name and its value |
| ConfigValues.IterLinesStep | pyardrone/config.py:89-91 | a well-formed first line yields its own pair ahead of the rest of the iteration |
| ConfigValues.IterLinesAppend | pyardrone/config.py:89-91 | the dump lines of well-formed entries yield their pairs in order, and the iteration then carries on with the lines that follow |
| ConfigValues.IterDump | pyardrone/config.py:88-91 | the dump of well-formed entries yields exactly their (name, decoded value) pairs, in line order, and raises nothing |
| ConfigValues.IterDumpUnterminated | pyardrone/config.py:88-91 | a well-formed dump whose last line has no line break yields exactly the same pairs, that line's included, and raises nothing |
| ConfigValues.IterAborts | pyardrone/config.py:88-91 | a malformed line after well-formed ones aborts the iteration; the pairs before it have been yielded and nothing after it is |
| ConfigValues.BlankLineAborts | pyardrone/config.py:89-90 | a blank line aborts the iteration like any malformed line |
| ConfigCache.Update | pyardrone/config.py:65 | `dict.update` removes no key, and a key that no pair names keeps its old value |
| ConfigCache.UpdateKeys | pyardrone/config.py:65 | after `update`, the keys are the old keys plus the names of the pairs |
| ConfigCache.UpdateLastWins | pyardrone/config.py:65 | after `update`, a name holds the value of the last pair that names it |
| ConfigCache.Retrieval | pyardrone/config.py:62-65 | `retrieve` never removes an entry; it raises the fetch error exactly when the owner fails, and then stores nothing; any other error it raises is a malformed line that does not split into exactly two parts |
| ConfigCache.RetrievalOfDump | pyardrone/config.py:62-65 | fetching a well-formed dump stores every decoded entry and raises nothing |
| ConfigCache.RetrievalKeepsPrefix | pyardrone/config.py:62-65 | a malformed line makes `retrieve` raise, but the entries from the lines before it are already stored |
| ConfigCache.ReadAfterFetch | pyardrone/config.py:57-65 | after the first fetch of a well-formed dump, a name reads as the decoding of its last raw value, and a name the dump lacks raises a KeyError for that name (`dict.__getitem__`, line 60) |
| ConfigCache.Owner.GetRawConfig | pyardrone/config.py:64 | returns the owner's raw configuration and counts one fetch |
| ConfigCache.Owner.Send | pyardrone/config.py:20 | appends the command to the owner's sent log |
| ConfigCache.LazyConfigDict.constructor | pyardrone/config.py:52-55 | the base layer starts empty and not yet fetched |
| ConfigCache.LazyConfigDict.Retrieve | pyardrone/config.py:62-65 | the flag is raised in every outcome; the owner is asked exactly once; the entries and the raised error are those `Retrieval` gives for the old entries and the owner's answer |
| ConfigCache.LazyConfigDict.Get | pyardrone/config.py:57-60 | `LazyRead`: if the layer was fetched, nothing changes and the key is looked up, a missing key raising a KeyError for that key (line 60); otherwise the owner is asked exactly once, and the fetch or parse error is raised instead of the lookup |
| ConfigCache.LazyConfigDict.Clear | pyardrone/config.py:67-69 | the layer becomes empty and not fetched, so the next read fetches again |
| ConfigCache.Config.constructor | pyardrone/config.py:9-13 | no pending writes, over a fresh, empty, unfetched base layer that shares the owner |
| ConfigCache.Config.Get | pyardrone/config.py:7-13 | `ConfigRead`: a pending write answers the read, and nothing is fetched or changed; otherwise the read goes to the base layer as `LazyRead` describes |
| ConfigCache.Config.Set | pyardrone/config.py:18-20 | the value is stored in the pending writes only, and exactly one `CONFIG(key, value)` is appended to the owner's sent log |
| ConfigCache.Config.ClearCache | pyardrone/config.py:22-24 | no pending writes, an empty base layer, and the next base read fetches again |
| ConfigCache.OptionKey | pyardrone/config.py:44-45 | `_get_option_name`: the key is the category name, then one colon, then the option name |
| ConfigCache.OptionKeyInjective | pyardrone/config.py:44-45 | for categories without a colon, two `category:option` keys are equal exactly when category and option are both equal |
| ConfigCache.ConfigCategory.constructor | pyardrone/config.py:31-33 | the view keeps its cache and its category name |
| ConfigCache.ConfigCategory.Get | pyardrone/config.py:35-36 | reading `category.option` is a cache read at exactly the key "category:option" |
| ConfigCache.ConfigCategory.Set | pyardrone/config.py:38-39 | writing `category.option` stores at exactly "category:option" and sends one `CONFIG` command with that key |
| ConfigCache.ReadMany | pyardrone/config.py:57-60 | over any run of reads, the owner is asked at most once: exactly once if the base layer was unfetched and some key has no pending write, never otherwise |
| BitFlags.Pow2 | pyardrone/at/__init__.py:25-26 | `1 << p` is positive (`BitFlags.Pow2Bit` gives its bits) |
| BitFlags.Bits | pyardrone/at/__init__.py:24-26 | `bits(*positions)` is zero exactly when no position is given |
| BitFlags.OrBounds | pyardrone/at/__init__.py:24-26 | `a OR b` is at least `a` and at least `b`, and at most `a + b` |
| BitFlags.OrBit | pyardrone/at/__init__.py:24-26 | a bit of `a OR b` is set exactly when it is set in `a` or in `b` |
| BitFlags.Pow2Bit | pyardrone/at/__init__.py:25-26 | `1 << p` has bit `p` set and no other |
| BitFlags.BitsBit | pyardrone/at/__init__.py:24-26 | the bits set in `bits(*positions)` are exactly the listed positions |
| BitFlags.BitsDetermineValue | pyardrone/at/__init__.py:24-26 | two numbers with the same bits are equal |
| BitFlags.SamePositionsSameBits | pyardrone/at/__init__.py:24-26 | order and repetition of the positions do not change `bits` |
| BitFlags.BitsDisjoint | pyardrone/at/__init__.py:24-26 | `bits` over position lists with no common position share no bit |
| BitFlags.OrDisjoint | pyardrone/at/__init__.py:24-26 | a number sharing no bit with `a` or with `b` shares none with `a OR b` |
| BitFlags.OrDisjointIsSum | pyardrone/at/__init__.py:24-26 | the OR of numbers with no common bit is their sum |
| BitFlags.BitsOfDistinct | pyardrone/at/__init__.py:24-26 | `bits` of distinct positions is the sum of their powers of two |
| AtCommands.Value | pyardrone/at/__init__.py:23-26 | a plain member's value is its number; the bits set in a flag member's value are exactly its declared positions |
| AtCommands.Member | pyardrone/at/__init__.py:23-26 | `Enum.name` finds nothing exactly when no member has that name; otherwise it finds the first member of that name |
| AtCommandFacts.RefFlagMembers | pyardrone/at/__init__.py:23-26 | `REF.Flags.default`, `.start` and `.select` each find their declared member |
| AtCommandFacts.RefDefaultNumber | pyardrone/at/__init__.py:24 | `bits(18, 20, 22, 24, 28)` is 0x11540000 |
| AtCommandFacts.SingleBitNumber | pyardrone/at/__init__.py:25-26 | `bits(p)` of a single position is `1 << p` |
| AtCommandFacts.RefFlagValues | pyardrone/at/__init__.py:23-26 | `REF.Flags.default` is 0x11540000, `start` is 0x200 and `select` is 0x100 |
| AtCommandFacts.RefDefaultBits | pyardrone/at/__init__.py:24 | the bits set in 0x11540000 are exactly 18, 20, 22, 24 and 28 |
| AtCommandFacts.RefFlagsDisjoint | pyardrone/at/__init__.py:23-26 | no two `REF.Flags` share a bit |
| AtCommandFacts.RefTakeoff | pyardrone/at/__init__.py:24-25 | `default OR start` is 0x11540200 |
| AtCommandFacts.RefTakeoffSelect | pyardrone/at/__init__.py:24-26 | `default OR start OR select` is 0x11540300 |
| AtCommandFacts.PcmdFlagMembers | pyardrone/at/__init__.py:43-46 | `PCMD.Flags.progressive`, `.combined_yaw` and `.absolute_control` each find their declared member |
| AtCommandFacts.PcmdFlagValues | pyardrone/at/__init__.py:43-46 | `progressive` is 1, `combined_yaw` is 2 and `absolute_control` is 4 |
| AtCommandFacts.PcmdFlagsDisjoint | pyardrone/at/__init__.py:43-46 | no two `PCMD.Flags` share a bit |
| AtCommandFacts.PcmdFlagsCombined | pyardrone/at/__init__.py:43-46 | the OR of the three `PCMD.Flags` is 7 |
| AtCommandFacts.PcmdArgs | pyardrone/at/__init__.py:35-41 | `PCMD` takes `flag` (Int32, required), then `roll`, `pitch`, `gaz` and `yaw` (Float, each defaulting to 0) |
| AtCommandFacts.PcmdMagArgs | pyardrone/at/__init__.py:55-63 | `PCMD_MAG` takes `flag` (Int32), then `roll`, `pitch`, `gaz`, `yaw`, `psi` and `psi_accuracy` (Float); none has a default |
| AtCommandFacts.ConfigArgs | pyardrone/at/__init__.py:79-91 | `CONFIG` takes the String arguments `key` then `value`; `CONFIG_IDS` takes `session`, `user` and `application_ids`; none has a default |
| AtCommandFacts.BareCommandArgs | pyardrone/at/__init__.py:66-109 | `FTRIM` and `COMWDG` declare no argument; `CALIB` declares the single Int32 argument `device_number` |
| AtCommandFacts.CtrlModesAndArgs | pyardrone/at/__init__.py:112-137 | `CTRL.Modes` numbers its seven names 0 to 6 in order, so `CFG_GET_CONTROL_MODE` is 4 and `ACK_CONTROL_MODE` is 5; `CTRL` takes `mode` (Int32) then `zero` (Int32, default 0) |
| AtCommandFacts.RefWellFormed | pyardrone/at/__init__.py:12-26 | table consistency check: `REF` has distinct argument names and distinct flag names, and its defaults trail its required arguments |
| AtCommandFacts.PcmdWellFormed | pyardrone/at/__init__.py:29-46 | table consistency check: the same for `PCMD`, whose defaults are all on Float arguments |
| AtCommandFacts.PcmdMagWellFormed | pyardrone/at/__init__.py:49-63 | table consistency check: `PCMD_MAG` has distinct argument names |
| AtCommandFacts.PcmdMagDefaultsTrail | pyardrone/at/__init__.py:49-63 | table consistency check: no required argument of `PCMD_MAG` follows one with a default |
| AtCommandFacts.ConfigWellFormed | pyardrone/at/__init__.py:73-80 | table consistency check: `CONFIG` has distinct argument names and no defaults |
| AtCommandFacts.ConfigIdsWellFormed | pyardrone/at/__init__.py:83-91 | table consistency check: `CONFIG_IDS` has distinct argument names and no defaults |
| AtCommandFacts.BareCommandsWellFormed | pyardrone/at/__init__.py:66-109 | table consistency check: `FTRIM`, `COMWDG` and `CALIB` pass it |
| AtCommandFacts.CtrlWellFormed | pyardrone/at/__init__.py:112-137 | table consistency check: `CTRL` has distinct argument and mode names, and its default (on an Int32 argument) comes last |
| AtCommandFacts.CommandsWellFormed | pyardrone/at/__init__.py:12-137 | table consistency check: every command of the table passes it |
| AtCommandFacts.CommandNamesDistinct | pyardrone/at/__init__.py:12-137 | no two commands of the table share a name |

## Left out

- `weakref.proxy` back-references (`pyardrone/config.py:10, 32, 54`): the owner and the cache are ordinary object references.
- The owner's transport: `get_raw_config` and `send` are socket I/O. The owner is a stand-in with a fixed answer (`Some(text)`, or `None` when the call raises), a fetch counter and a log of sent commands. An answer that changes between fetches is not modelled.
- The exception that a failing `get_raw_config` raises is one error value, `FetchFailed`. Its contents are not modelled.
- Float parsing (`pyardrone/config.py:83`) is floating-point numerics. Whether `float()` accepts a text is the parameter `isFloat`, and a float result keeps its literal text instead of a number.
- ConfigValues.Unpack: `str.isdigit()` and `int()` are modelled over the ASCII digits only. Python also accepts other Unicode digits. `isdigit()` also accepts characters that `int()` rejects, such as "²": for those, `unpack_value` raises ValueError at `pyardrone/config.py:80`, and that ends the whole parse. The model instead decodes such text by the float or text rule.
- Python's Unicode line and space classes are written out as character lists. Text is a sequence of characters, with no encoding.
- Dynamic attribute access (`__getattr__`/`__setattr__`, `pyardrone/config.py:15-16, 35-39`) is modelled as the explicit methods `ConfigCategory.Get` and `ConfigCategory.Set`. `Config.__getattr__` only builds the view, which is `ConfigCategory.constructor`. Normal attribute lookup runs first in Python, so a name that clashes with an existing attribute never reaches the cache: `config.data`, `config.owner`, `config.updates` and the `ChainMap` methods are never configuration categories, and reading `category._name` returns the slot while writing it stores `"category:_name"`. The explicit methods do not reproduce these clashes.
- `ConfigCategory.__repr__` (`pyardrone/config.py:41-42`) only formats text for display.
- Inherited `ChainMap`/`dict` behaviour the code does not override (iteration, `len`, `in`, `get`, deletion) is outside the modelled core.
- Python's `IntEnum` machinery: an enumeration is a sequence of named constants, and `Enum.name` is `AtCommands.Member`.
- Wire rendering, argument conversion and range checks, and the argument description strings: these belong to `pyardrone/at/base.py` and `pyardrone/at/arguments.py`, which are not part of this model. The table stops at names, kinds, defaults and constants.
- `bits` itself lives in `pyardrone/utils`, which is not part of this model. It is modelled as the OR of `1 << p` over the positions, on unbounded non-negative integers.
