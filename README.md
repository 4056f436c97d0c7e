# Flake lock files and configuration settings, modelled in Dafny

This project models two parts of the Nix package manager.

**The flake lock file** (`src/libexpr/flake/lockfile.cc`). A lock file is a tree of
locked inputs. Each input has a name, a resolved flake reference, the reference as the
user wrote it, a NAR hash, and its own inputs. The model covers:

- decoding the tree from JSON, including the legacy `uri`/`originalUri` key names and
  the rule that a mutable reference is refused;
- encoding the tree back to JSON, with `version` 3 at the top;
- the recursive `isImmutable` check;
- the store path of an input;
- `LockFile::read`, which refuses any version but 3 and reads a missing file as an
  empty lock file.

**The configuration reader** (`src/libstore/globals.cc`). It reads `nix.conf` lines of
the form `name = v1 v2 …` into a settings map. The file is read again on each query
until one read of an existing file succeeds. So a missing file is looked for again on each query, and a failed read
is repeated on top of what its earlier lines set. Typed queries read that map: list,
string, boolean and integer. A global calling UID starts at 0, which counts as unset.
Once a non-zero UID is set, only a call that asks for a reset replaces it.

Modules:

- `Wrappers` (wrappers.dfy): `Option` and `Result`.
- `Json` (json.dfy): the JSON values the lock file uses. Object keys are visited in
  lexicographic order, as nlohmann's `std::map` objects do.
- `Collaborators` (collaborators.dfy): the code the lock file calls but does not
  define. This covers flake reference parsing and printing, `isImmutable` on a
  reference, hash parsing and SRI printing, and the store's `makeFixedOutputPath` and
  `printStorePath`. Each is a function field of a record `Env` over abstract types. The
  facts the lemmas need about them are predicates in those lemmas' `requires`:
  - printing then parsing gives the same reference back;
  - printing then parsing gives the same hash back;
  - the store is injective.
- `Lockfile` (lockfile.dfy): the lock file itself. Each loop of the source is a `method`
  proved equal to a function. The properties are lemmas about those functions.
- `Util` (util.dfy): the three helpers the configuration code calls: `tokenizeString`,
  `int2String` and `string2Int`. util.cc is not part of this model. These follow the C++
  standard library operations the helpers are built on:
  - `tokenizeString` splits on its default separators: space, tab, newline and carriage
    return;
  - `int2String` prints in decimal, as `std::ostringstream << int` does;
  - `string2Int` reads with `std::istringstream >> int` in the C locale and then needs
    the whole string to be consumed. So leading white space is skipped (space, tab,
    newline, vertical tab, form feed, carriage return), then one optional `+` or `-`
    and one or more digits must make up the rest, with a value inside the range of a
    32-bit `int`. Vertical tab and form feed are not separators of `tokenizeString`, so
    a value such as a form feed followed by `7` keeps that leading form feed and still
    reads as 7.
- `Globals` (globals.dfy): the configuration reader and the queries. The static
  `settings` map, the `settingsRead` flag and `callingUID` are the fields of the class
  `Globals`. The contents of `nix.conf` are a parameter (`None` when the file does not
  exist).

Two behaviours of the lock file code that a reader might expect to be otherwise:

- **A missing `inputs` member.** An absent `inputs` member might be expected to mean
  no nested inputs. The code instead indexes a const JSON object with `json["inputs"]`,
  which is undefined behaviour in nlohmann::json when the member is absent. The model
  reports `MissingKey("inputs")`. A missing `narHash` is treated the same way.
- **A legacy key of the wrong type.** `json.value("url", json.value("uri", ""))`
  evaluates the inner lookup first. So a `uri` member that is not a string is an error
  even when `url` is present. The model does the same.

Two other behaviours of the code:

- When `inputs` is a string or a number, iterating it yields that one value, and
  building an input from it is a type error. When `inputs` is `null`, there are no
  inputs.
- When several entries fail to decode, the error is the failing entry with the least
  key, because items are visited in key order.

## Model

| member | source | states |
|---|---|---|
| Json.KeyLess | src/libexpr/flake/lockfile.cc:34 | std::less on strings: character by character, a proper prefix first. No ensures; the three lemmas below make it a strict total order |
| Json.KeyLessAsymmetric | src/libexpr/flake/lockfile.cc:34 | no two keys are each below the other (so no key is below itself) |
| Json.KeyLessTransitive | src/libexpr/flake/lockfile.cc:34 | the order is transitive |
| Json.KeyLessTotal | src/libexpr/flake/lockfile.cc:34 | any two different keys are ordered one way or the other |
| Json.LeastKey | src/libexpr/flake/lockfile.cc:34 | the key chosen is in the set and below every other key (the order in which `items()` visits an object) |
| Lockfile.StringValue | src/libexpr/flake/lockfile.cc:10-11 | `json.value(key, def)`: the default when the key is absent. A present key succeeds exactly when it holds a string, and gives that string. The only error is a type error on that key |
| Lockfile.UrlValue | src/libexpr/flake/lockfile.cc:10-11 | a legacy key that is present and not a string is a type error. Otherwise a present new key decides (string or type error). An absent new key falls back to the legacy value, or to "" |
| Lockfile.NarHash | src/libexpr/flake/lockfile.cc:12 | a missing `narHash` is an error. A success means `narHash` is a string that the hash parser turns into the result |
| Lockfile.ParseRef | src/libexpr/flake/lockfile.cc:10-11 | `parseFlakeRef`: succeeds exactly when the parser accepts the url, with its result; otherwise the error is `BadFlakeRef` of that url |
| Lockfile.FinishInput | src/libexpr/flake/lockfile.cc:10-15 | on success, the reference is immutable and was parsed from the url value. The original reference was parsed from the originalUrl value. The hash is `narHash` parsed. The nested inputs are the base part |
| Lockfile.DecodeInput | src/libexpr/flake/lockfile.cc:8-16 | a decoded input came from an object. Its reference and every reference below it are immutable |
| Lockfile.DecodedInputBase | src/libexpr/flake/lockfile.cc:8-9 | a decoded input's own inputs are the decoding of the same object by the base class constructor |
| Lockfile.DecodeInputs | src/libexpr/flake/lockfile.cc:32-36 | success needs an object with `inputs`. The result is immutable throughout. Its names are exactly the keys of an object `inputs`. A null `inputs` gives no entries |
| Lockfile.DecodeEntries | src/libexpr/flake/lockfile.cc:34-35 | success only for an object or null. The names are the object's keys, and the result is immutable throughout |
| Lockfile.DecodedEntries | src/libexpr/flake/lockfile.cc:34-35 | when no entry fails, the map has exactly the object's keys. Each value is that entry's decoding, and each is immutable throughout |
| Lockfile.NewLockedInputs | src/libexpr/flake/lockfile.cc:32-36 | the imperative constructor returns exactly `DecodeInputs`: its value, or its error |
| Lockfile.DecodeItems | src/libexpr/flake/lockfile.cc:34-35 | the loop over the items, visited in key order, returns exactly `DecodeEntries`. That includes the error of the first failing key |
| Lockfile.FirstFailureIsLeast | src/libexpr/flake/lockfile.cc:34-35 | the loop stops at the first failing key it visits, and that key is the least failing key |
| Lockfile.AllEntriesDecoded | src/libexpr/flake/lockfile.cc:34-35 | when every entry decodes, the map the loop built is the decoded object |
| Lockfile.NewLockedInput | src/libexpr/flake/lockfile.cc:8-16 | the imperative constructor returns exactly `DecodeInput` |
| Lockfile.InputsImmutable | src/libexpr/flake/lockfile.cc:50-56 | the recursive `isImmutable`: every entry satisfies `InputImmutable`. A predicate with no ensures; `InputsImmutableIffAllRefs` characterises it |
| Lockfile.InputImmutable | src/libexpr/flake/lockfile.cc:53 | one entry's conjunct: its reference is immutable and its own inputs are immutable. A predicate with no ensures |
| Lockfile.IsImmutable | src/libexpr/flake/lockfile.cc:50-56 | the loop with early `return false` computes exactly the recursive conjunction `InputsImmutable` |
| Lockfile.ImmutableAtEveryPath | src/libexpr/flake/lockfile.cc:50-56 | in an immutable tree, the input at every path has an immutable reference |
| Lockfile.ImmutableFromPaths | src/libexpr/flake/lockfile.cc:50-56 | immutable references at every path make the tree immutable |
| Lockfile.InputsImmutableIffAllRefs | src/libexpr/flake/lockfile.cc:50-56 | `isImmutable` holds exactly when no input at any depth has a mutable reference |
| Lockfile.MutableInputAnywhere | src/libexpr/flake/lockfile.cc:53 | one mutable reference at any depth makes the whole tree not immutable |
| Lockfile.EmptyIsImmutable | src/libexpr/flake/lockfile.cc:55 | a tree with no inputs is immutable |
| Lockfile.InputToJson | src/libexpr/flake/lockfile.cc:18-25 | an input encodes to an object with exactly `inputs`, `url`, `originalUrl` and `narHash` |
| Lockfile.InputsToJson | src/libexpr/flake/lockfile.cc:38-48 | the encoding is an object whose only member `inputs` is an object keyed by exactly the input names |
| Lockfile.EncodedEntries | src/libexpr/flake/lockfile.cc:42-44 | the `inputs` object has exactly the input names as keys, each mapped to that input's encoding |
| Lockfile.LockFileToJson | src/libexpr/flake/lockfile.cc:58-63 | a lock file encodes to an object with exactly `inputs` and `version`, where `version` is 3 and `inputs` is what `LockedInputs::toJson` wrote |
| Lockfile.EncodeInputs | src/libexpr/flake/lockfile.cc:38-48 | the loop that fills `j[i.first]` builds exactly `InputsToJson` |
| Lockfile.EncodeInput | src/libexpr/flake/lockfile.cc:18-25 | the imperative `toJson` builds exactly `InputToJson` |
| Lockfile.VersionOf | src/libexpr/flake/lockfile.cc:70 | `json.value("version", 0)`: 0 when the member is absent. A present member succeeds exactly when it is an integer, and gives that integer. A non-object document is an error |
| Lockfile.Read | src/libexpr/flake/lockfile.cc:65-77 | no file reads as an empty lock file. A file that reads successfully has version 3. Everything read is immutable throughout |
| Lockfile.VersionGate | src/libexpr/flake/lockfile.cc:70-74 | a missing version is refused as version 0. Any other integer but 3 is refused with that number. With version 3 the result is the decoding of the object |
| Lockfile.ReadAbsent | src/libexpr/flake/lockfile.cc:75-76 | no file gives the empty lock file, which is immutable |
| Lockfile.MutableUrlRefused | src/libexpr/flake/lockfile.cc:14-15 | an entry whose url parses to a mutable reference never decodes |
| Lockfile.MutableUrlError | src/libexpr/flake/lockfile.cc:14-15 | when the rest of the entry is well formed, the error is the mutable reference error, carrying the printed reference |
| Lockfile.LegacyKeysEquivalent | src/libexpr/flake/lockfile.cc:10-11 | an entry with `uri`/`originalUri` in place of `url`/`originalUrl` decodes to the same result |
| Lockfile.LegacyFields | src/libexpr/flake/lockfile.cc:10-11 | the renamed entry has the legacy key names in place of the new ones: `uri` holds the old `url` value and `originalUri` the old `originalUrl` value. Every other key keeps its value |
| Lockfile.InputRoundTrip | src/libexpr/flake/lockfile.cc:8-25 | decoding an encoded immutable input gives it back |
| Lockfile.InputsRoundTripAt | src/libexpr/flake/lockfile.cc:32-48 | decoding the `inputs` member that `toJson` wrote gives the same tree back |
| Lockfile.LockFileRoundTrip | src/libexpr/flake/lockfile.cc:58-77 | reading what `LockFile::toJson` wrote gives the same lock file back |
| Lockfile.ReadThenWrite | src/libexpr/flake/lockfile.cc:58-77 | everything `read` returns survives writing and reading again |
| Lockfile.ComputeStorePath | src/libexpr/flake/lockfile.cc:27-30 | the printed fixed-output path of the NAR hash under the name `source`. No ensures; the two lemmas below state what it depends on |
| Lockfile.StorePathOfHash | src/libexpr/flake/lockfile.cc:27-30 | inputs with the same NAR hash have the same store path |
| Lockfile.StorePathIffHash | src/libexpr/flake/lockfile.cc:27-30 | with an injective store, two inputs have the same store path exactly when they have the same NAR hash |
| Util.WordLength | src/libstore/globals.cc:70 | the length of the leading run of non-separators, which ends at a separator or at the end |
| Util.Tokenize | src/libstore/globals.cc:70 | every token is non-empty and free of whitespace |
| Util.TokenizeSeparated | src/libstore/globals.cc:70 | a whitespace character splits a string's tokens into those on its left and those on its right |
| Util.TokenizeOneWord | src/libstore/globals.cc:70 | a lone word is its own only token |
| Util.TokenizeJoinWords | src/libstore/globals.cc:70 | tokenizing words joined by spaces gives the words back |
| Util.TokenizeBlank | src/libstore/globals.cc:71 | a line of whitespace has no tokens |
| Util.ToInt32 | src/libstore/globals.cc:118-121 | an unsigned value passed as an `int` is in the `int` range, is equal to the original modulo 2^32, and is negative exactly when the original is above 2^31-1 |
| Util.NatToString | src/libstore/globals.cc:121 | a number prints as a non-empty string of digits |
| Util.IntToString | src/libstore/globals.cc:121 | the printed number is non-empty, starts with `-` exactly when the number is negative, and is digits after its first character |
| Util.SkipSpace | src/libstore/globals.cc:121 | what `operator>>` skips: the result is a suffix of the string, everything before it is C-locale white space, and it is empty or starts with a non-space |
| Util.ReadNumber | src/libstore/globals.cc:121 | the part of `operator>>` after the white space: a successful read is within the `int` range; `ReadSigned` gives the value for a sign and digits |
| Util.ReadSigned | src/libstore/globals.cc:121 | an optional `+` or `-` and digits read as their signed value whenever it fits an `int` |
| Util.String2Int | src/libstore/globals.cc:121 | a successful read is within the `int` range |
| Util.NumberRead | src/libstore/globals.cc:121 | white space, then an optional `+` or `-`, then digits, reads as the signed value of the digits whenever that fits an `int` |
| Util.NumberShape | src/libstore/globals.cc:121 | conversely, every string that reads is white space, an optional `+` or `-`, and digits, and the value read is their signed value |
| Util.IntStringRoundTrip | src/libstore/globals.cc:121 | reading back a printed `int` gives it back |
| Globals.IndexOf | src/libstore/globals.cc:66 | `find` gives the first occurrence, or the length when there is none |
| Globals.StripComment | src/libstore/globals.cc:66-68 | the stripped line is a prefix of the line and contains no `#` |
| Globals.Lines | src/libstore/globals.cc:60-64 | the lines the loop reads: the text up to each newline, and a last unterminated line when there is one. No ensures; the lemmas below characterise it |
| Globals.LinesHaveNoNewline | src/libstore/globals.cc:60-64 | no line read contains a newline |
| Globals.NextLine | src/libstore/globals.cc:61-64 | the characters up to the next newline are the next line, and reading resumes after that newline |
| Globals.LinesOfText | src/libstore/globals.cc:60-64 | the lines read from newline-terminated lines, plus an unterminated last one, are exactly those lines |
| Globals.TerminatedLines | src/libstore/globals.cc:60-64 | joining the lines read, each followed by a newline, gives the text back, with a newline added if the text lacked a final one |
| Globals.ParseLine | src/libstore/globals.cc:66-80 | the comment dropped, then a blank line, an illegal line quoting the text without its comment, or `name = values`. No ensures; `CommentIgnored`, `BlankLineSkipped`, `FormattedLineParses`, `LoneWordIllegal` and `MissingEqualsIllegal` state what it does |
| Globals.LoneWordIllegal | src/libstore/globals.cc:73-74 | a line holding one word is illegal, and the error quotes that line |
| Globals.MissingEqualsIllegal | src/libstore/globals.cc:73-74 | a line of two or more words whose second word is not `=` is illegal, and the error quotes that line |
| Globals.ApplyLines | src/libstore/globals.cc:60-81 | the lines applied in order up to the first illegal one. The only error is an illegal line, and no name already set is removed |
| Globals.ReadContents | src/libstore/globals.cc:58-81 | empty contents change nothing. The only error is an illegal line |
| Globals.ReadFile | src/libstore/globals.cc:52-55 | a file that does not exist changes nothing and is no error. The only error is an illegal line |
| Globals.Load | src/libstore/globals.cc:89 | once `settingsRead` is set the settings are used as they are, with no error. The only error is an illegal line |
| Globals.ApplyFirstLine | src/libstore/globals.cc:70-80 | reading a first line skips it when blank, stops with its error when illegal, and otherwise stores its assignment before going on |
| Globals.CommentIgnored | src/libstore/globals.cc:66-68 | everything from the first `#` on does not change how a line parses |
| Globals.BlankLineSkipped | src/libstore/globals.cc:70-71 | a line of whitespace, or whitespace followed by a comment, changes nothing |
| Globals.FormattedLineParses | src/libstore/globals.cc:70-80 | `name = v1 … vn` parses to the assignment of exactly those values to `name`, for any n including 0 |
| Globals.FirstIllegalLine | src/libstore/globals.cc:73-74 | reading stops with the first illegal line, whose text without comment the error quotes. The lines before it have already updated the settings |
| Globals.ReadFailsIffIllegalLine | src/libstore/globals.cc:60-83 | reading fails exactly when some line is illegal |
| Globals.ApplyLinesAppend | src/libstore/globals.cc:60-81 | reading legal lines in two parts is reading them together |
| Globals.UnassignedKept | src/libstore/globals.cc:80 | lines that do not assign a name leave its value, or its absence, as it was |
| Globals.LastAssignmentWins | src/libstore/globals.cc:80 | the last line that assigns a name decides its value |
| Globals.ConfiguredLineRead | src/libstore/globals.cc:52-84 | a file holding one formatted line sets exactly that name to those values and reports no error |
| Globals.LookupList | src/libstore/globals.cc:90-91 | the values of a set name, or the default for an unset one |
| Globals.SingleValue | src/libstore/globals.cc:101-104 | succeeds exactly for a one-element list, giving that element. The only error is "not a list" |
| Globals.StringSettingOf | src/libstore/globals.cc:95-105 | an unset name gives the default. A set name succeeds exactly when it has one value, and gives that value. The only error is "not a list" |
| Globals.ParseBool | src/libstore/globals.cc:111-114 | succeeds exactly for `true` and `false`, and printing the result gives the text back. Anything else is the error quoting the text |
| Globals.BoolSettingOf | src/libstore/globals.cc:108-115 | an unset name gives the default. True is returned exactly for the value list `["true"]`, false exactly for `["false"]` |
| Globals.BoolSettingRoundTrip | src/libstore/globals.cc:108-115 | a setting holding the printed boolean reads back as that boolean, whatever the default |
| Globals.IntSettingOf | src/libstore/globals.cc:118-124 | an unset name gives the default when it is at most 2^31-1, and an error otherwise. A set name succeeds exactly when it has one value that reads as a non-negative `int`, and gives that number |
| Globals.IntSettingRoundTrip | src/libstore/globals.cc:118-124 | a setting holding a printed non-negative `int` reads back as that number, whatever the default |
| Globals.SetUidStep | src/libstore/globals.cc:134-140 | setting succeeds exactly when no UID is set yet or a reset is asked for, and the new UID is the one given |
| Globals.UidSetOnce | src/libstore/globals.cc:134-140 | the first UID is always accepted. Once a non-zero UID is set, only a reset replaces it |
| Globals.Globals.constructor | src/libstore/globals.cc:34-41 | the initial state: no settings, nothing read yet, UID 0 |
| Globals.Globals.ReadSettings | src/libstore/globals.cc:52-84 | the character-by-character loop leaves exactly the settings and the error of reading the lines in order. `settingsRead` becomes true only when a file was read without error |
| Globals.Globals.ReadLine | src/libstore/globals.cc:61-63 | the inner loop collects exactly the characters up to the next newline or the end |
| Globals.Globals.ApplyLine | src/libstore/globals.cc:66-80 | one pass of the loop body: a blank line changes nothing. An illegal line gives the error quoting the line without its comment and changes nothing. An assignment stores its values under its name |
| Globals.Globals.QuerySetting | src/libstore/globals.cc:87-92 | the file is read first unless `settingsRead` is set. The result is the reading error, or the stored list, or the default when the name is not set |
| Globals.Globals.QueryStringSetting | src/libstore/globals.cc:95-105 | the list query with the default `[def]`, then `StringSettingOf` on the settings as read |
| Globals.Globals.QueryBoolSetting | src/libstore/globals.cc:108-115 | the string query with the printed default, then `BoolSettingOf` on the settings as read |
| Globals.Globals.QueryIntSetting | src/libstore/globals.cc:118-124 | the string query with the printed default, then `IntSettingOf` on the settings as read |
| Globals.Globals.QueryCallingUID | src/libstore/globals.cc:126-132 | returns the current calling UID and changes nothing |
| Globals.Globals.SetCallingUID | src/libstore/globals.cc:134-140 | when `SetUidStep` allows it, the UID is replaced with no error. Otherwise the UID is kept and the error is "already set" |

## Left out

- Reading and writing files is not modelled, and neither is parsing or printing JSON
  text (`nlohmann::json::parse`, `dump(4)`, `readFile`, `writeFile`, `createDirs`). The
  model takes the parsed JSON value or the file contents, with `None` for a file that
  does not exist. `LockFile::write` and `operator<<` are left out because they are only
  this printing.
- JSON arrays, floating-point numbers and booleans are not part of `Json`. The lock
  file never writes them, so a document containing one is outside the model.
- `VersionOf`: the model reads `version` as an unbounded integer. nlohmann would
  convert it to `int`, so a version outside the `int` range is not modelled.
- The flake reference, hash and store code are abstract functions. Their own
  behaviour, such as what makes a reference immutable, is not part of this model.
- `uidToUsername`, `queryCallingUsername` and `queryCurrentUsername` are left out. They
  call `getpwuid` and `geteuid` on the system's user database.
- The global path variables and flags of globals.cc (lines 11-31 and 37-39) are not
  modelled. `settingsRead` (line 34) and `callingUID` (line 36) are modelled, as fields
  of the class `Globals`.
  They are plain initial values that the modelled functions do not use, apart from
  `nixConfDir`, which only names the file.
- The error messages' text is not modelled. Each error is a constructor carrying the
  values the message mentions, apart from the file path. The model does not have the
  path, so `UnsupportedVersion` and `IllegalLine` leave it out.
- `ReadSettings` does not model the 32-bit `unsigned int` position counter, which
  would wrap on a file of 4 GiB or more.
- Concurrent access to the global settings and UID is not modelled.
- The choice of error when several lock file entries fail comes from the key order of
  std::map-backed objects (`Json.KeyLess`). No other iteration order is modelled.
- The contents of `nix.conf` are a Dafny `string`, a sequence of Unicode characters,
  where the code reads bytes. A file that is not valid UTF-8 therefore cannot be
  represented. Splitting into lines, comments and tokens looks only at ASCII
  characters, so on every file that can be represented the behaviour is the same.
- `Util.IntToString`: util.cc is not part of this model. `int2String` is assumed to
  take an `int`, so an `unsigned int` default above 2^31-1 prints as a negative number.
  As a result, `IntSettingOf` refuses such a default when the name is not set.
