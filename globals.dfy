/** The configuration file reader and the typed setting queries of
    src/libstore/globals.cc, and the calling-UID variable.

    The static `settings` map, the static `settingsRead` flag and the global
    `callingUID` are the fields of the class `Globals`. The contents of `nix.conf` are a
    parameter of the operations that may read it: `None` when the file does not exist. */
module Globals {
  import opened Wrappers
  import Util

  /** `uid_t` / `unsigned int`. */
  newtype Uint32 = x: int | 0 <= x < 0x1_0000_0000

  /** The `settings` map: option name to its list of values. */
  type Settings = map<string, seq<string>>

  /** The errors the functions of this file throw. */
  datatype ConfError =
    | IllegalLine(line: string)
    | NotAList(name: string)
    | NotABool(name: string, value: string)
    | NotAnInt(name: string)
    | UidAlreadySet

  // ---------------------------------------------------------------------------
  // The lines of the configuration file

  /** `s.find(c)`, with `|s|` for `npos`. */
  function IndexOf(s: string, c: char): (i: nat)
    ensures i <= |s|
    ensures i < |s| ==> s[i] == c
    ensures forall j :: 0 <= j < i ==> s[j] != c
    decreases |s|
  {
    if s == [] || s[0] == c then 0 else 1 + IndexOf(s[1..], c)
  }

  /** The lines `readSettings` reads: the text up to each `'\n'`, and after the last
      `'\n'` the rest of the contents when there is any. */
  function Lines(contents: string): seq<string>
    decreases |contents|
  {
    if contents == [] then []
    else
      var n := IndexOf(contents, '\n');
      [contents[..n]] + (if n < |contents| then Lines(contents[n + 1..]) else [])
  }

  /** What remains of the contents from position `pos` on. */
  function Rest(contents: string, pos: nat): string
  {
    if pos < |contents| then contents[pos..] else []
  }

  /** The text before the first `#`. */
  function StripComment(line: string): (r: string)
    ensures '#' !in r
    ensures r <= line
  {
    var hash := IndexOf(line, '#');
    if hash < |line| then line[..hash] else line
  }

  /** What a line of `nix.conf` says. */
  datatype LineKind =
    | Blank
    | Illegal(line: string)
    | Assignment(name: string, value: seq<string>)

  /** One line: the comment dropped, then nothing, or `name = v1 v2 ...`, or an error
      that quotes the line without its comment. */
  function ParseLine(raw: string): LineKind
  {
    var line := StripComment(raw);
    var tokens := Util.Tokenize(line);
    if tokens == [] then Blank
    else if |tokens| < 2 || tokens[1] != "=" then Illegal(line)
    else Assignment(tokens[0], tokens[2..])
  }

  /** The settings after `readSettings`, and the error it threw, if any. An error leaves
      the assignments of the lines before it in place. */
  datatype ReadOutcome = ReadOutcome(settings: Settings, error: Option<ConfError>)

  /** Applying the lines in order to the settings, up to the first illegal one. */
  function ApplyLines(s: Settings, lines: seq<string>): (r: ReadOutcome)
    ensures r.error.None? || r.error.value.IllegalLine?
    ensures r.settings.Keys >= s.Keys
    decreases |lines|
  {
    if lines == [] then ReadOutcome(s, None)
    else match ParseLine(lines[0])
      case Blank => ApplyLines(s, lines[1..])
      case Illegal(line) => ReadOutcome(s, Some(IllegalLine(line)))
      case Assignment(name, value) => ApplyLines(s[name := value], lines[1..])
  }

  /** `readSettings` on these file contents. */
  function ReadContents(s: Settings, contents: string): (r: ReadOutcome)
    ensures contents == [] ==> r == ReadOutcome(s, None)
    ensures r.error.None? || r.error.value.IllegalLine?
  {
    ApplyLines(s, Lines(contents))
  }

  /** `readSettings`: nothing happens when there is no file. */
  function ReadFile(s: Settings, file: Option<string>): (r: ReadOutcome)
    ensures file.None? ==> r == ReadOutcome(s, None)
    ensures r.error.None? || r.error.value.IllegalLine?
  {
    match file
    case None => ReadOutcome(s, None)
    case Some(contents) => ReadContents(s, contents)
  }

  /** The settings a query sees: `querySetting` calls `readSettings` unless
      `settingsRead` is set. */
  function Load(settingsRead: bool, s: Settings, file: Option<string>): (r: ReadOutcome)
    ensures settingsRead ==> r == ReadOutcome(s, None)
    ensures r.error.None? || r.error.value.IllegalLine?
  {
    if settingsRead then ReadOutcome(s, None) else ReadFile(s, file)
  }

  // ---------------------------------------------------------------------------
  // Properties of the reader

  lemma {:induction false} IndexOfAfter(a: string, c: char, b: string)
    requires c !in a
    ensures IndexOf(a + b, c) == |a| + IndexOf(b, c)
    decreases |a|
  {
    if a != [] {
      assert (a + b)[0] == a[0] != c;
      assert (a + b)[1..] == a[1..] + b;
      assert c !in a[1..];
      IndexOfAfter(a[1..], c, b);
    } else {
      assert a + b == b;
    }
  }

  /** Everything from the first `#` on is ignored. */
  lemma CommentIgnored(line: string, comment: string)
    requires '#' !in line
    ensures ParseLine(line + "#" + comment) == ParseLine(line)
  {
    StripCommentAfter(line, comment);
  }

  lemma StripCommentAfter(line: string, comment: string)
    requires '#' !in line
    ensures StripComment(line + "#" + comment) == StripComment(line) == line
  {
    var full := line + "#" + comment;
    assert full == line + ("#" + comment);
    IndexOfAfter(line, '#', "#" + comment);
    assert full[..|line|] == line;
    IndexOfAfter(line, '#', "");
    assert line + "" == line;
  }

  /** A line of blanks, with or without a comment after them, is skipped. */
  lemma BlankLineSkipped(s: Settings, blanks: string, comment: string, rest: seq<string>)
    requires forall i :: 0 <= i < |blanks| ==> Util.IsSeparator(blanks[i])
    ensures ApplyLines(s, [blanks] + rest) == ApplyLines(s, rest)
    ensures ApplyLines(s, [blanks + "#" + comment] + rest) == ApplyLines(s, rest)
  {
    assert forall i :: 0 <= i < |blanks| ==> blanks[i] != '#';
    CommentIgnored(blanks, comment);
    IndexOfAfter(blanks, '#', "");
    assert blanks + "" == blanks;
    Util.TokenizeBlank(blanks);
    assert ([blanks] + rest)[1..] == rest;
    assert ([blanks + "#" + comment] + rest)[1..] == rest;
  }

  /** A token the writer of a configuration line may use: a word with no `#`. */
  predicate IsSettingWord(w: string)
  {
    Util.IsWord(w) && '#' !in w
  }

  /** The line `name = v1 v2 ...`. */
  function FormatLine(name: string, values: seq<string>): string
  {
    Util.JoinWords([name, "="] + values)
  }

  /** Joining words with spaces adds no character but the space. */
  lemma {:induction false} NoCharInJoin(words: seq<string>, c: char)
    requires c != ' '
    requires forall i :: 0 <= i < |words| ==> c !in words[i]
    ensures c !in Util.JoinWords(words)
    decreases |words|
  {
    if |words| > 1 {
      NoCharInJoin(words[1..], c);
    }
  }

  /** A formatted line reads back as the assignment it was formatted from, the value
      list being the tokens from the third on (possibly none). */
  lemma FormattedLineParses(name: string, values: seq<string>)
    requires IsSettingWord(name)
    requires forall i :: 0 <= i < |values| ==> IsSettingWord(values[i])
    ensures ParseLine(FormatLine(name, values)) == Assignment(name, values)
  {
    var words := [name, "="] + values;
    assert forall i :: 0 <= i < |words| ==> IsSettingWord(words[i]) by {
      forall i | 0 <= i < |words| ensures IsSettingWord(words[i]) {
        if i >= 2 {
          assert words[i] == values[i - 2];
        }
      }
    }
    NoCharInJoin(words, '#');
    IndexOfAfter(FormatLine(name, values), '#', "");
    assert FormatLine(name, values) + "" == FormatLine(name, values);
    Util.TokenizeJoinWords(words);
    assert words[2..] == values;
  }

  /** A line holding a single word is illegal, and the error quotes it. */
  lemma LoneWordIllegal(w: string)
    requires IsSettingWord(w)
    ensures ParseLine(w) == Illegal(w)
  {
    IndexOfAfter(w, '#', "");
    assert w + "" == w;
    Util.TokenizeOneWord(w);
  }

  /** A line of two or more words whose second word is not `=` is illegal, and the error
      quotes it. */
  lemma MissingEqualsIllegal(words: seq<string>)
    requires |words| >= 2 && words[1] != "="
    requires forall i :: 0 <= i < |words| ==> IsSettingWord(words[i])
    ensures ParseLine(Util.JoinWords(words)) == Illegal(Util.JoinWords(words))
  {
    var line := Util.JoinWords(words);
    NoCharInJoin(words, '#');
    IndexOfAfter(line, '#', "");
    assert line + "" == line;
    Util.TokenizeJoinWords(words);
  }

  /** The lines of `l + "\n" + rest`. */
  lemma LinesCons(line: string, rest: string)
    requires '\n' !in line
    ensures Lines(line + "\n" + rest) == [line] + Lines(rest)
  {
    var s := line + "\n" + rest;
    IndexOfAfter(line, '\n', "\n" + rest);
    assert s == line + ("\n" + rest);
    assert s[..|line|] == line;
    assert s[|line| + 1..] == rest;
  }

  /** Each line followed by a newline. */
  function Terminated(lines: seq<string>): string
    decreases |lines|
  {
    if lines == [] then "" else lines[0] + "\n" + Terminated(lines[1..])
  }

  /** The lines of a text are its newline-terminated lines and, when the text does not
      end in a newline, its last line too. */
  lemma {:induction false} LinesOfText(lines: seq<string>, last: string)
    requires forall i :: 0 <= i < |lines| ==> '\n' !in lines[i]
    requires '\n' !in last
    ensures Lines(Terminated(lines) + last) == lines + (if last == [] then [] else [last])
    decreases |lines|
  {
    if lines == [] {
      assert Terminated(lines) + last == last;
      if last != [] {
        LinesOfOneLine(last);
      }
    } else {
      var line := lines[0];
      var more := lines[1..];
      assert lines == [line] + more;
      assert forall i :: 0 <= i < |more| ==> '\n' !in more[i] by {
        forall i | 0 <= i < |more| ensures '\n' !in more[i] {
          assert more[i] == lines[i + 1];
        }
      }
      LinesOfText(more, last);
      LinesOfTextStep(line, more, last, Terminated(lines) + last, Terminated(more) + last);
    }
  }

  /** The step of the induction above: the first line comes off the front. */
  lemma LinesOfTextStep(line: string, more: seq<string>, last: string, text: string, tail: string)
    requires '\n' !in line
    requires tail == Terminated(more) + last
    requires text == Terminated([line] + more) + last
    ensures Lines(text) == [line] + Lines(tail)
  {
    TerminatedCons(line, more);
    assert text == line + "\n" + tail;
    LinesCons(line, tail);
  }

  /** A text with no newline is one line. */
  lemma LinesOfOneLine(line: string)
    requires line != [] && '\n' !in line
    ensures Lines(line) == [line]
  {
    IndexOfAfter(line, '\n', "");
    assert line + "" == line;
  }

  /** No line read contains a newline. */
  lemma {:induction false} LinesHaveNoNewline(contents: string)
    ensures forall i :: 0 <= i < |Lines(contents)| ==> '\n' !in Lines(contents)[i]
    decreases |contents|
  {
    if contents != [] {
      var n := IndexOf(contents, '\n');
      if n < |contents| {
        LinesHaveNoNewline(contents[n + 1..]);
      }
    }
  }

  /** Text that does not end with a newline gets one. */
  function WithFinalNewline(contents: string): string
  {
    if contents == [] || contents[|contents| - 1] == '\n' then contents else contents + "\n"
  }

  /** Conversely, terminating every line of a text gives the text back, with a newline
      added when it lacked a final one. */
  lemma {:induction false} TerminatedLines(contents: string)
    ensures Terminated(Lines(contents)) == WithFinalNewline(contents)
    decreases |contents|
  {
    if contents != [] {
      var n := IndexOf(contents, '\n');
      var line := contents[..n];
      if n < |contents| {
        var rest := contents[n + 1..];
        assert Lines(contents) == [line] + Lines(rest);
        TerminatedLines(rest);
        TerminatedCons(line, Lines(rest));
        SplitAtNewline(contents, n);
        FinalNewlineAppend(line + "\n", rest);
      } else {
        assert line == contents;
        assert Lines(contents) == [line];
        TerminatedCons(line, []);
      }
    }
  }

  lemma SplitAtNewline(contents: string, n: nat)
    requires n < |contents| && contents[n] == '\n'
    ensures contents == (contents[..n] + "\n") + contents[n + 1..]
  {
  }

  lemma TerminatedCons(line: string, lines: seq<string>)
    ensures Terminated([line] + lines) == line + "\n" + Terminated(lines)
  {
  }

  lemma FinalNewlineAppend(a: string, rest: string)
    requires a != [] && a[|a| - 1] == '\n'
    ensures a + WithFinalNewline(rest) == WithFinalNewline(a + rest)
  {
  }

  /** The step of the reading loop: the line that starts at `start` ends at `end`. */
  lemma NextLine(contents: string, start: nat, end: nat)
    requires start < |contents| && start <= end <= |contents|
    requires forall i :: start <= i < end ==> contents[i] != '\n'
    requires end < |contents| ==> contents[end] == '\n'
    ensures Lines(Rest(contents, start)) == [contents[start..end]] + Lines(Rest(contents, end + 1))
  {
    var t := contents[start..];
    var line := contents[start..end];
    assert '\n' !in line;
    if end < |contents| {
      assert t == line + "\n" + contents[end + 1..];
      LinesCons(line, contents[end + 1..]);
    } else {
      assert t == line;
      IndexOfAfter(line, '\n', "");
      assert line + "" == line;
    }
  }

  /** Reading starts with the first line. */
  lemma ApplyFirstLine(s: Settings, raw: string, rest: seq<string>)
    ensures ApplyLines(s, [raw] + rest) == match ParseLine(raw)
      case Blank => ApplyLines(s, rest)
      case Illegal(line) => ReadOutcome(s, Some(IllegalLine(line)))
      case Assignment(name, value) => ApplyLines(s[name := value], rest)
  {
  }

  /** No line is illegal. */
  ghost predicate AllLegal(lines: seq<string>)
  {
    forall i :: 0 <= i < |lines| ==> !ParseLine(lines[i]).Illegal?
  }

  /** The lines are all legal exactly when the first one is and the others are. */
  lemma AllLegalCons(lines: seq<string>)
    requires lines != []
    ensures AllLegal(lines) <==> !ParseLine(lines[0]).Illegal? && AllLegal(lines[1..])
  {
  }

  /** Reading fails exactly when some line is illegal, and then with the first illegal
      line, keeping what the lines before it assigned. */
  lemma FirstIllegalLine(s: Settings, lines: seq<string>, i: nat)
    requires i < |lines| && ParseLine(lines[i]).Illegal? && AllLegal(lines[..i])
    ensures ApplyLines(s, lines) ==
      ReadOutcome(ApplyLines(s, lines[..i]).settings, Some(IllegalLine(ParseLine(lines[i]).line)))
  {
    var prefix := lines[..i];
    var suffix := lines[i..];
    assert lines == prefix + suffix;
    ApplyLinesAppend(s, prefix, suffix);
    assert suffix == [lines[i]] + lines[i + 1..];
    ApplyFirstLine(ApplyLines(s, prefix).settings, lines[i], lines[i + 1..]);
  }

  /** Reading reports an error exactly when some line is illegal. */
  lemma {:induction false} ReadFailsIffIllegalLine(s: Settings, lines: seq<string>)
    ensures ApplyLines(s, lines).error.Some? <==> !AllLegal(lines)
    decreases |lines|
  {
    if lines != [] {
      AllLegalCons(lines);
      match ParseLine(lines[0])
      case Blank => ReadFailsIffIllegalLine(s, lines[1..]);
      case Illegal(_) =>
      case Assignment(name, value) => ReadFailsIffIllegalLine(s[name := value], lines[1..]);
    }
  }

  /** Reading legal lines one part after another is reading them together. */
  lemma {:induction false} ApplyLinesAppend(s: Settings, a: seq<string>, b: seq<string>)
    requires AllLegal(a)
    ensures ApplyLines(s, a + b) == ApplyLines(ApplyLines(s, a).settings, b)
    decreases |a|
  {
    if a == [] {
      assert a + b == b;
    } else {
      assert (a + b)[0] == a[0];
      assert (a + b)[1..] == a[1..] + b;
      assert AllLegal(a[1..]) by {
        forall j | 0 <= j < |a| - 1 ensures !ParseLine(a[1..][j]).Illegal? {
          assert a[1..][j] == a[j + 1];
        }
      }
      assert !ParseLine(a[0]).Illegal?;
      match ParseLine(a[0])
      case Blank => ApplyLinesAppend(s, a[1..], b);
      case Assignment(name, value) => ApplyLinesAppend(s[name := value], a[1..], b);
    }
  }

  /** The line assigns the option `name`. */
  predicate Assigns(line: string, name: string)
  {
    ParseLine(line).Assignment? && ParseLine(line).name == name
  }

  /** Lines that do not assign `name` leave it as it was. */
  lemma {:induction false} UnassignedKept(s: Settings, lines: seq<string>, name: string)
    requires forall i :: 0 <= i < |lines| ==> !Assigns(lines[i], name)
    ensures name in ApplyLines(s, lines).settings <==> name in s
    ensures name in s ==> ApplyLines(s, lines).settings[name] == s[name]
    decreases |lines|
  {
    if lines != [] {
      assert !Assigns(lines[0], name);
      assert forall i :: 0 <= i < |lines| - 1 ==> !Assigns(lines[1..][i], name) by {
        forall i | 0 <= i < |lines| - 1 ensures !Assigns(lines[1..][i], name) {
          assert lines[1..][i] == lines[i + 1];
        }
      }
      match ParseLine(lines[0])
      case Blank => UnassignedKept(s, lines[1..], name);
      case Illegal(_) =>
      case Assignment(n, value) => UnassignedKept(s[n := value], lines[1..], name);
    }
  }

  /** The last line that assigns an option decides its value. */
  lemma LastAssignmentWins(s: Settings, lines: seq<string>, i: nat, name: string, value: seq<string>)
    requires AllLegal(lines)
    requires i < |lines| && ParseLine(lines[i]) == Assignment(name, value)
    requires forall j :: i < j < |lines| ==> !Assigns(lines[j], name)
    ensures name in ApplyLines(s, lines).settings
    ensures ApplyLines(s, lines).settings[name] == value
  {
    var before := lines[..i];
    var after := lines[i + 1..];
    assert lines == before + ([lines[i]] + after);
    assert AllLegal(before) by {
      forall j | 0 <= j < |before| ensures !ParseLine(before[j]).Illegal? {
        assert before[j] == lines[j];
      }
    }
    ApplyLinesAppend(s, before, [lines[i]] + after);
    var mid := ApplyLines(s, before).settings;
    assert ([lines[i]] + after)[1..] == after;
    assert ApplyLines(mid, [lines[i]] + after) == ApplyLines(mid[name := value], after);
    assert forall j :: 0 <= j < |after| ==> !Assigns(after[j], name) by {
      forall j | 0 <= j < |after| ensures !Assigns(after[j], name) {
        assert after[j] == lines[i + 1 + j];
      }
    }
    UnassignedKept(mid[name := value], after, name);
  }

  // ---------------------------------------------------------------------------
  // The queries, on the settings they see

  /** The list `querySetting`: the stored list, or the default when the name is not
      set. */
  function LookupList(s: Settings, name: string, def: seq<string>): (r: seq<string>)
    ensures name in s ==> r == s[name]
    ensures name !in s ==> r == def
  {
    if name in s then s[name] else def
  }

  /** The check of the string `querySetting`: exactly one value. */
  function SingleValue(name: string, values: seq<string>): (r: Result<string, ConfError>)
    ensures r.Success? <==> |values| == 1
    ensures r.Success? ==> values == [r.value]
    ensures r.Failure? ==> r.error == NotAList(name)
  {
    if |values| != 1 then Failure(NotAList(name)) else Success(values[0])
  }

  /** The string `querySetting`: the list query with the one-element default `[def]`,
      which must give exactly one value. */
  function StringSettingOf(s: Settings, name: string, def: string): (r: Result<string, ConfError>)
    ensures name !in s ==> r == Success(def)
    ensures name in s ==> (r.Success? <==> |s[name]| == 1)
    ensures name in s && r.Success? ==> r.value == s[name][0]
    ensures r.Failure? ==> r.error == NotAList(name)
  {
    SingleValue(name, LookupList(s, name, [def]))
  }

  /** How `queryBoolSetting` prints its default: `def ? "true" : "false"`. */
  function BoolText(b: bool): string
  {
    if b then "true" else "false"
  }

  /** The two accepted spellings of a boolean; `BoolText` is its inverse. */
  function ParseBool(name: string, v: string): (r: Result<bool, ConfError>)
    ensures r.Success? ==> BoolText(r.value) == v
    ensures r.Failure? <==> v != "true" && v != "false"
    ensures r.Failure? ==> r.error == NotABool(name, v)
  {
    if v == "true" then Success(true)
    else if v == "false" then Success(false)
    else Failure(NotABool(name, v))
  }

  /** `queryBoolSetting`: the default when the name is not set; otherwise true only for
      exactly `true`, false only for exactly `false`, an error for anything else. */
  function BoolSettingOf(s: Settings, name: string, def: bool): (r: Result<bool, ConfError>)
    ensures name !in s ==> r == Success(def)
    ensures name in s ==> (r == Success(true) <==> s[name] == ["true"])
    ensures name in s ==> (r == Success(false) <==> s[name] == ["false"])
  {
    var v :- StringSettingOf(s, name, BoolText(def));
    ParseBool(name, v)
  }

  /** `queryIntSetting`: the default passes through `int2String` (as an `int`) and
      `string2Int`, a set value through `string2Int`; a value that is not an integer,
      or is negative, is an error. A default above `IntMax` wraps to a negative number
      and so is refused even when the name is not set. */
  function IntSettingOf(s: Settings, name: string, def: Uint32): (r: Result<Uint32, ConfError>)
    ensures name !in s ==> r == if def as int <= Util.IntMax then Success(def) else Failure(NotAnInt(name))
    ensures name in s ==> (r.Success? <==>
      |s[name]| == 1 && Util.String2Int(s[name][0]).Some? && Util.String2Int(s[name][0]).value >= 0)
    ensures name in s && r.Success? ==> Util.String2Int(s[name][0]) == Some(r.value as int)
    ensures r.Success? ==> r.value as int <= Util.IntMax
  {
    Util.IntStringRoundTrip(Util.ToInt32(def as int));
    var v :- StringSettingOf(s, name, Util.IntToString(Util.ToInt32(def as int)));
    match Util.String2Int(v)
    case None => Failure(NotAnInt(name))
    case Some(n) => if n < 0 then Failure(NotAnInt(name)) else Success(n as Uint32)
  }

  /** `setCallingUID`: refused when a UID is already set and `reset` is false. */
  function SetUidStep(current: Uint32, uid: Uint32, reset: bool): (r: Result<Uint32, ConfError>)
    ensures r.Success? <==> current == 0 || reset
    ensures r.Success? ==> r.value == uid
  {
    if current != 0 && !reset then Failure(UidAlreadySet) else Success(uid)
  }

  /** Once a non-zero UID is set, only a reset replaces it. */
  lemma UidSetOnce(uid: Uint32, other: Uint32, reset: bool)
    requires uid != 0
    ensures SetUidStep(0, uid, false) == Success(uid)
    ensures SetUidStep(uid, other, reset).Success? <==> reset
  {
  }

  /** A file holding the one line `name = v1 v2 ...` sets `name` to those values. */
  lemma ConfiguredLineRead(s: Settings, name: string, values: seq<string>)
    requires IsSettingWord(name)
    requires forall i :: 0 <= i < |values| ==> IsSettingWord(values[i])
    ensures ReadContents(s, FormatLine(name, values) + "\n") == ReadOutcome(s[name := values], None)
  {
    var line := FormatLine(name, values);
    var words := [name, "="] + values;
    assert forall i :: 0 <= i < |words| ==> '\n' !in words[i] by {
      forall i | 0 <= i < |words| ensures '\n' !in words[i] {
        if i >= 2 {
          assert words[i] == values[i - 2];
          assert Util.IsWord(words[i]);
        }
        assert forall k :: 0 <= k < |words[i]| ==> words[i][k] != '\n';
      }
    }
    NoCharInJoin(words, '\n');
    LinesCons(line, "");
    assert line + "\n" == line + "\n" + "";
    assert Lines(line + "\n") == [line];
    FormattedLineParses(name, values);
    assert [line][1..] == [];
    assert ApplyLines(s, [line]) == ApplyLines(s[name := values], []);
  }

  /** A boolean written with `BoolText` reads back, whatever the default. */
  lemma BoolSettingRoundTrip(s: Settings, name: string, b: bool, def: bool)
    ensures BoolSettingOf(s[name := [BoolText(b)]], name, def) == Success(b)
  {
  }

  /** A non-negative `int` written with `int2String` reads back, whatever the default. */
  lemma IntSettingRoundTrip(s: Settings, name: string, n: Uint32, def: Uint32)
    requires n as int <= Util.IntMax
    ensures IntSettingOf(s[name := [Util.IntToString(n as int)]], name, def) == Success(n)
  {
    Util.IntStringRoundTrip(n as int);
  }

  // ---------------------------------------------------------------------------
  // The global state

  class Globals {
    var settings: Settings
    var settingsRead: bool
    var callingUID: Uint32

    /** The static initialisers: no settings, not read, UID 0. */
    constructor ()
      ensures settings == map[] && !settingsRead && callingUID == 0
    {
      settings := map[];
      settingsRead := false;
      callingUID := 0;
    }

    /** `readSettings`: the file is read line by line, character by character; each
        legal line updates `settings`; `settingsRead` is set only when the whole file
        was read. */
    method ReadSettings(file: Option<string>) returns (err: Option<ConfError>)
      modifies this`settings, this`settingsRead
      ensures settings == ReadFile(old(settings), file).settings
      ensures err == ReadFile(old(settings), file).error
      ensures settingsRead == (old(settingsRead) || (file.Some? && err.None?))
    {
      if file.None? {
        return None;
      }
      var contents := file.value;
      var pos: nat := 0;
      while pos < |contents|
        invariant pos <= |contents| + 1
        invariant ReadContents(old(settings), contents) == ApplyLines(settings, Lines(Rest(contents, pos)))
        invariant settingsRead == old(settingsRead)
      {
        var line, end := ReadLine(contents, pos);
        NextLine(contents, pos, end);
        ApplyFirstLine(settings, line, Lines(Rest(contents, end + 1)));
        pos := end + 1;
        var illegal := ApplyLine(line);
        if illegal.Some? {
          return illegal;
        }
      }
      settingsRead := true;
      return None;
    }

    /** The characters from `start` up to the next newline or the end of the file. */
    static method ReadLine(contents: string, start: nat) returns (line: string, end: nat)
      requires start <= |contents|
      ensures start <= end <= |contents|
      ensures line == contents[start..end]
      ensures forall i :: start <= i < end ==> contents[i] != '\n'
      ensures end < |contents| ==> contents[end] == '\n'
    {
      line := "";
      end := start;
      while end < |contents| && contents[end] != '\n'
        invariant start <= end <= |contents|
        invariant line == contents[start..end]
        invariant forall i :: start <= i < end ==> contents[i] != '\n'
      {
        line := line + [contents[end]];
        end := end + 1;
      }
    }

    /** The body of the loop of `readSettings` for one line: drop the comment,
        tokenize, then skip a blank line, refuse an illegal one, or store the
        assignment. */
    method ApplyLine(raw: string) returns (illegal: Option<ConfError>)
      modifies this`settings
      ensures match ParseLine(raw)
        case Blank => illegal.None? && settings == old(settings)
        case Illegal(line) => illegal == Some(IllegalLine(line)) && settings == old(settings)
        case Assignment(name, value) => illegal.None? && settings == old(settings)[name := value]
    {
      var line := raw;
      var hash := IndexOf(line, '#');
      if hash < |line| {
        line := line[..hash];
      }
      var tokens := Util.Tokenize(line);
      if |tokens| == 0 {
        return None;
      }
      if |tokens| < 2 || tokens[1] != "=" {
        return Some(IllegalLine(line));
      }
      var name := tokens[0];
      settings := settings[name := tokens[2..]];
      return None;
    }

    /** The list `querySetting`. */
    method QuerySetting(name: string, def: seq<string>, file: Option<string>) returns (r: Result<seq<string>, ConfError>)
      modifies this`settings, this`settingsRead
      ensures settings == Load(old(settingsRead), old(settings), file).settings
      ensures settingsRead == (old(settingsRead) || (file.Some? && Load(old(settingsRead), old(settings), file).error.None?))
      ensures r == match Load(old(settingsRead), old(settings), file).error
        case Some(e) => Failure(e)
        case None => Success(LookupList(settings, name, def))
    {
      if !settingsRead {
        var err := ReadSettings(file);
        if err.Some? {
          return Failure(err.value);
        }
      }
      r := Success(LookupList(settings, name, def));
    }

    /** The string `querySetting`. */
    method QueryStringSetting(name: string, def: string, file: Option<string>) returns (r: Result<string, ConfError>)
      modifies this`settings, this`settingsRead
      ensures settings == Load(old(settingsRead), old(settings), file).settings
      ensures settingsRead == (old(settingsRead) || (file.Some? && Load(old(settingsRead), old(settings), file).error.None?))
      ensures r == match Load(old(settingsRead), old(settings), file).error
        case Some(e) => Failure(e)
        case None => StringSettingOf(settings, name, def)
    {
      var values := QuerySetting(name, [def], file);
      if values.Failure? {
        return Failure(values.error);
      }
      r := SingleValue(name, values.value);
    }

    /** `queryBoolSetting`. */
    method QueryBoolSetting(name: string, def: bool, file: Option<string>) returns (r: Result<bool, ConfError>)
      modifies this`settings, this`settingsRead
      ensures settings == Load(old(settingsRead), old(settings), file).settings
      ensures settingsRead == (old(settingsRead) || (file.Some? && Load(old(settingsRead), old(settings), file).error.None?))
      ensures r == match Load(old(settingsRead), old(settings), file).error
        case Some(e) => Failure(e)
        case None => BoolSettingOf(settings, name, def)
    {
      var v := QueryStringSetting(name, BoolText(def), file);
      if v.Failure? {
        return Failure(v.error);
      }
      r := ParseBool(name, v.value);
    }

    /** `queryIntSetting`. */
    method QueryIntSetting(name: string, def: Uint32, file: Option<string>) returns (r: Result<Uint32, ConfError>)
      modifies this`settings, this`settingsRead
      ensures settings == Load(old(settingsRead), old(settings), file).settings
      ensures settingsRead == (old(settingsRead) || (file.Some? && Load(old(settingsRead), old(settings), file).error.None?))
      ensures r == match Load(old(settingsRead), old(settings), file).error
        case Some(e) => Failure(e)
        case None => IntSettingOf(settings, name, def)
    {
      var v := QueryStringSetting(name, Util.IntToString(Util.ToInt32(def as int)), file);
      if v.Failure? {
        return Failure(v.error);
      }
      var n := Util.String2Int(v.value);
      if n.None? || n.value < 0 {
        return Failure(NotAnInt(name));
      }
      r := Success(n.value as Uint32);
    }

    /** `queryCallingUID`. */
    method QueryCallingUID() returns (uid: Uint32)
      ensures uid == callingUID
    {
      uid := callingUID;
    }

    /** `setCallingUID`. */
    method SetCallingUID(uid: Uint32, reset: bool) returns (err: Option<ConfError>)
      modifies this`callingUID
      ensures SetUidStep(old(callingUID), uid, reset).Success? ==>
        err.None? && callingUID == uid
      ensures SetUidStep(old(callingUID), uid, reset).Failure? ==>
        err == Some(UidAlreadySet) && callingUID == old(callingUID)
    {
      if callingUID != 0 && !reset {
        return Some(UidAlreadySet);
      }
      callingUID := uid;
      return None;
    }
  }
}
