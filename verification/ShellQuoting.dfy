/** What imbhgo-fetch prints (cmd/imbhgo-fetch/main.go) against the programs that read it back: a POSIX shell,
    PowerShell, and cmd/go's splitting of CGO_LDFLAGS. */
module ShellQuoting {
  import opened Wrappers

  // ---------------------------------------------------------------- the printers

  /** strings.ReplaceAll(s, "'", with) */
  function ReplaceQuotes(s: string, with: string): string {
    if s == [] then [] else (if s[0] == '\'' then with else [s[0]]) + ReplaceQuotes(s[1..], with)
  }

  function PosixQuote(s: string): string {
    "'" + ReplaceQuotes(s, "'\\''") + "'"
  }

  function PowerShellQuote(s: string): string {
    "'" + ReplaceQuotes(s, "''") + "'"
  }

  predicate HasBlank(s: string) {
    exists i :: 0 <= i < |s| && (s[i] == ' ' || s[i] == '\t')
  }

  function LdflagsFor(cacheDir: string): string {
    var search := "-L" + cacheDir;
    (if HasBlank(search) then "'" + search + "'" else search) + " -limbhgo"
  }

  datatype Shell = Sh | Cmd | PowerShell

  function EnvLine(shell: Shell, name: string, value: string): string {
    match shell
    case Cmd => "set " + name + "=" + value
    case PowerShell => "$env:" + name + " = " + PowerShellQuote(value)
    case Sh => "export " + name + "=" + PosixQuote(value)
  }

  // ---------------------------------------------------------------- a POSIX shell

  /** Characters that mean something else unquoted (section 2.2 of the Shell Command Language); the reader
      below gives up on them. */
  predicate IsSpecial(c: char) {
    || c == '|' || c == '&' || c == ';' || c == '<' || c == '>' || c == '(' || c == ')' || c == '$' || c == '`'
    || c == '\\' || c == '"' || c == '\'' || c == ' ' || c == '\t' || c == '\n' || c == '*' || c == '?'
    || c == '[' || c == '#' || c == '~'
  }

  predicate IsPlain(s: string) {
    forall i :: 0 <= i < |s| ==> !IsSpecial(s[i])
  }

  function Text(word: Option<string>): string {
    if word.Some? then word.value else ""
  }

  function Flush(words: seq<string>, word: Option<string>): seq<string> {
    if word.Some? then words + [word.value] else words
  }

  /** Token recognition and quote removal for backslash and single quotes (sections 2.2.1, 2.2.2 and 2.3 of
      the Shell Command Language): the words of a line, None when it is unfinished or not this simple. */
  function Words(s: string, quoted: bool, words: seq<string>, word: Option<string>): Option<seq<string>>
    decreases |s|
  {
    if s == [] then if quoted then None else Some(Flush(words, word))
    else if quoted then
      if s[0] == '\'' then Words(s[1..], false, words, word)
      else Words(s[1..], true, words, Some(Text(word) + [s[0]]))
    else if s[0] == '\'' then Words(s[1..], true, words, Some(Text(word)))
    else if s[0] == '\\' then
      if |s| == 1 then None
      else if s[1] == '\n' then Words(s[2..], false, words, word)
      else Words(s[2..], false, words, Some(Text(word) + [s[1]]))
    else if s[0] == ' ' || s[0] == '\t' then Words(s[1..], false, Flush(words, word), None)
    else if IsSpecial(s[0]) then None
    else Words(s[1..], false, words, Some(Text(word) + [s[0]]))
  }

  function WordsOf(line: string): Option<seq<string>> {
    Words(line, false, [], None)
  }

  /** Inside single quotes, the printed form of one quote reads as one quote. */
  lemma EscapedQuote(rest: string, words: seq<string>, text: string)
    ensures Words("'\\''" + rest, true, words, Some(text)) == Words(rest, true, words, Some(text + "'"))
  {
    var closed := ("'\\''" + rest)[1..];
    assert closed[0] == '\\' && closed[1] == '\'';
    assert closed[2..] == "'" + rest;
    assert ("'" + rest)[1..] == rest;
    assert Words("'" + rest, false, words, Some(text + "'")) == Words(rest, true, words, Some(text + "'"));
  }

  lemma {:induction false} QuotedBody(s: string, rest: string, words: seq<string>, text: string)
    ensures Words(ReplaceQuotes(s, "'\\''") + ("'" + rest), true, words, Some(text)) ==
            Words(rest, false, words, Some(text + s))
    decreases |s|
  {
    var end := "'" + rest;
    if s == [] {
      assert ReplaceQuotes(s, "'\\''") + end == end;
      assert end[1..] == rest && text + s == text;
    } else {
      var more := ReplaceQuotes(s[1..], "'\\''") + end;
      QuotedBody(s[1..], rest, words, text + [s[0]]);
      assert text + [s[0]] + s[1..] == text + s;
      if s[0] == '\'' {
        EscapedQuote(more, words, text);
        assert ReplaceQuotes(s, "'\\''") + end == "'\\''" + more;
      } else {
        assert ReplaceQuotes(s, "'\\''") + end == [s[0]] + more;
        assert ([s[0]] + more)[1..] == more;
      }
    }
  }

  /** Wherever it stands in a line, a quoted string adds exactly itself to the word in progress and nothing
      of it is read as a quote, an operator or a blank. */
  lemma PosixQuoteInContext(s: string, rest: string, words: seq<string>, word: Option<string>)
    ensures Words(PosixQuote(s) + rest, false, words, word) == Words(rest, false, words, Some(Text(word) + s))
  {
    var body := ReplaceQuotes(s, "'\\''") + ("'" + rest);
    assert PosixQuote(s) + rest == "'" + body;
    assert ("'" + body)[1..] == body;
    QuotedBody(s, rest, words, Text(word));
  }

  lemma {:induction false} PlainWord(s: string, rest: string, words: seq<string>, word: Option<string>)
    requires IsPlain(s) && s != []
    ensures Words(s + rest, false, words, word) == Words(rest, false, words, Some(Text(word) + s))
    decreases |s|
  {
    assert (s + rest)[1..] == s[1..] + rest;
    assert !IsSpecial(s[0]) && (s + rest)[0] == s[0];
    assert Words(s + rest, false, words, word) == Words(s[1..] + rest, false, words, Some(Text(word) + [s[0]]));
    if |s| > 1 {
      PlainWord(s[1..], rest, words, Some(Text(word) + [s[0]]));
      assert Text(word) + [s[0]] + s[1..] == Text(word) + s;
    } else {
      assert s[1..] + rest == rest && s == [s[0]];
    }
  }

  /** One word, equal to the original, for every string. */
  lemma PosixQuoteRoundTrip(s: string)
    ensures WordsOf(PosixQuote(s)) == Some([s])
  {
    PosixQuoteInContext(s, "", [], None);
    assert PosixQuote(s) + "" == PosixQuote(s) && Text(None) + s == s;
    assert [] + [s] == [s];
  }

  /** The value `eval` of a line leaves in the variable, when the line is one export of it. */
  function ExportedValue(line: string, name: string): Option<string> {
    var words := WordsOf(line);
    if words.Some? && |words.value| == 2 && words.value[0] == "export" && name + "=" <= words.value[1] then
      Some(words.value[1][|name| + 1..])
    else None
  }

  lemma EvalExports(name: string, value: string)
    requires IsPlain(name)
    ensures ExportedValue(EnvLine(Sh, name, value), name) == Some(value)
  {
    var assign, quoted := name + "=", PosixQuote(value);
    var tail := assign + (quoted + "");
    assert EnvLine(Sh, name, value) == "export" + (" " + tail);
    PlainWord("export", " " + tail, [], None);
    assert (" " + tail)[1..] == tail;
    assert Text(None) + "export" == "export" && [] + ["export"] == ["export"];
    assert Words(" " + tail, false, [], Some("export")) == Words(tail, false, ["export"], None);
    PlainWord(assign, quoted + "", ["export"], None);
    assert Text(None) + assign == assign;
    PosixQuoteInContext(value, "", ["export"], Some(assign));
    assert ["export"] + [assign + value] == ["export", assign + value];
  }

  // ---------------------------------------------------------------- PowerShell

  /** The contents of a single-quoted literal from its opening quote's right: a doubled quote stands for
      one, a single one ends it. None unless it ends exactly at the end. */
  function Undouble(s: string): Option<string>
    decreases |s|
  {
    if s == [] then None
    else if s[0] != '\'' then
      var r := Undouble(s[1..]);
      if r.Some? then Some([s[0]] + r.value) else None
    else if |s| == 1 then Some("")
    else if s[1] == '\'' then
      var r := Undouble(s[2..]);
      if r.Some? then Some("'" + r.value) else None
    else None
  }

  lemma {:induction false} UndoubleBody(s: string)
    ensures Undouble(ReplaceQuotes(s, "''") + "'") == Some(s)
  {
    if s != [] {
      UndoubleBody(s[1..]);
      var more := ReplaceQuotes(s[1..], "''") + "'";
      assert [s[0]] + s[1..] == s;
      if s[0] == '\'' {
        assert ReplaceQuotes(s, "''") + "'" == "''" + more;
        assert ("''" + more)[2..] == more;
      } else {
        assert ReplaceQuotes(s, "''") + "'" == [s[0]] + more;
        assert ([s[0]] + more)[1..] == more;
      }
    }
  }

  /** Quotes in one literal round-trip for every string. */
  lemma PowerShellRoundTrip(s: string)
    ensures PowerShellQuote(s)[0] == '\'' && Undouble(PowerShellQuote(s)[1..]) == Some(s)
  {
    UndoubleBody(s);
    assert PowerShellQuote(s)[1..] == ReplaceQuotes(s, "''") + "'";
  }

  /** The value a PowerShell assignment of one literal leaves in the environment variable. */
  function PowerShellValue(line: string, name: string): Option<string> {
    var front := "$env:" + name + " = '";
    if front <= line then Undouble(line[|front|..]) else None
  }

  lemma PowerShellAssigns(name: string, value: string)
    ensures PowerShellValue(EnvLine(PowerShell, name, value), name) == Some(value)
  {
    var front, line := "$env:" + name + " = '", EnvLine(PowerShell, name, value);
    PowerShellRoundTrip(value);
    assert line == front + PowerShellQuote(value)[1..] by {
      assert PowerShellQuote(value) == "'" + PowerShellQuote(value)[1..];
      assert "$env:" + name + " = " + "'" == front;
    }
    assert line[|front|..] == PowerShellQuote(value)[1..];
  }

  /** cmd.exe takes the rest of a set line literally. */
  function CmdValue(line: string, name: string): Option<string> {
    var front := "set " + name + "=";
    if front <= line then Some(line[|front|..]) else None
  }

  lemma CmdSets(name: string, value: string)
    ensures CmdValue(EnvLine(Cmd, name, value), name) == Some(value)
  {
    var front := "set " + name + "=";
    assert EnvLine(Cmd, name, value) == front + value;
  }

  // ---------------------------------------------------------------- cmd/go

  predicate IsFieldSpace(c: char) {
    c == ' ' || c == '\t' || c == '\n' || c == '\r'
  }

  /** How far `s` runs before the first character that `stop` accepts. */
  function Span(s: string, stop: char -> bool): (n: nat)
    ensures n <= |s|
    ensures forall i :: 0 <= i < n ==> !stop(s[i])
    ensures n < |s| ==> stop(s[n])
  {
    if s == [] || stop(s[0]) then 0 else 1 + Span(s[1..], stop)
  }

  /** cmd/go's fields of CGO_LDFLAGS: blanks separate, a quote counts only where it opens a field, nothing is
      unescaped inside it, and an unterminated one is an error. */
  function Fields(s: string): Option<seq<string>>
    decreases |s|
  {
    if s == [] then Some([])
    else if IsFieldSpace(s[0]) then Fields(s[1..])
    else if s[0] == '\'' || s[0] == '"' then
      var n := Span(s[1..], c => c == s[0]);
      if n == |s| - 1 then None else Prepend(s[1..1 + n], Fields(s[n + 2..]))
    else
      var n := Span(s, IsFieldSpace);
      if n == 0 then None else Prepend(s[..n], Fields(s[n..]))
  }

  function Prepend(f: string, rest: Option<seq<string>>): Option<seq<string>> {
    if rest.Some? then Some([f] + rest.value) else None
  }

  function FlagsOf(cacheDir: string): seq<string> {
    ["-L" + cacheDir, "-limbhgo"]
  }

  /** What a cache directory's name may hold. */
  predicate DirOk(dir: string) {
    if ' ' in dir || '\t' in dir then '\'' !in dir else '\n' !in dir && '\r' !in dir
  }

  lemma {:induction false} SpanIs(s: string, stop: char -> bool, n: nat)
    requires n <= |s| && (forall i :: 0 <= i < n ==> !stop(s[i])) && (n < |s| ==> stop(s[n]))
    ensures Span(s, stop) == n
    decreases n
  {
    if n > 0 {
      SpanIs(s[1..], stop, n - 1);
    }
  }

  predicate IsBare(f: string) {
    f != [] && f[0] != '\'' && f[0] != '"' && forall i :: 0 <= i < |f| ==> !IsFieldSpace(f[i])
  }

  lemma LastField(f: string)
    requires IsBare(f)
    ensures Fields(" " + f) == Some([f])
  {
    assert (" " + f)[1..] == f;
    SpanIs(f, IsFieldSpace, |f|);
    assert !IsFieldSpace(f[0]);
    assert f[..|f|] == f && f[|f|..] == [];
    assert Fields(f) == Prepend(f, Fields([]));
    assert [f] + [] == [f];
  }

  /** An unquoted field runs to its first blank. */
  lemma BareField(f: string, rest: string)
    requires f != [] && !IsFieldSpace(f[0]) && f[0] != '\'' && f[0] != '"'
    requires rest != [] && IsFieldSpace(rest[0])
    ensures (forall i :: 0 <= i < |f| ==> !IsFieldSpace(f[i])) ==> Fields(f + rest) == Prepend(f, Fields(rest))
    ensures (exists i :: 0 <= i < |f| && IsFieldSpace(f[i])) ==>
              Fields(f + rest).None? || |Fields(f + rest).value[0]| < |f|
  {
    var s := f + rest;
    var n := Span(s, IsFieldSpace);
    if forall i :: 0 <= i < |f| ==> !IsFieldSpace(f[i]) {
      SpanIs(s, IsFieldSpace, |f|);
      assert s[..|f|] == f && s[|f|..] == rest;
    } else {
      var i :| 0 <= i < |f| && IsFieldSpace(f[i]);
      assert s[i] == f[i];
      assert n <= i;
    }
  }

  /** A quoted field runs to the next quote of its kind. */
  lemma QuotedField(f: string, rest: string)
    ensures '\'' !in f ==> Fields("'" + f + "'" + rest) == Prepend(f, Fields(rest))
    ensures '\'' in f ==> Fields("'" + f + "'" + rest).None? || |Fields("'" + f + "'" + rest).value[0]| < |f|
  {
    var s := "'" + f + "'" + rest;
    assert s[1..] == f + "'" + rest;
    var n := Span(s[1..], c => c == s[0]);
    if '\'' !in f {
      SpanIs(s[1..], c => c == s[0], |f|);
      assert s[1..1 + |f|] == f && s[|f| + 2..] == rest;
    } else {
      var i :| 0 <= i < |f| && f[i] == '\'';
      assert s[1..][i] == f[i];
      assert n <= i;
    }
  }

  lemma SearchHas(dir: string)
    ensures HasBlank("-L" + dir) <==> HasBlank(dir)
    ensures '\'' in "-L" + dir <==> '\'' in dir
    ensures IsBare("-L" + dir) <==> forall i :: 0 <= i < |dir| ==> !IsFieldSpace(dir[i])
  {
    var search := "-L" + dir;
    assert forall i :: 0 <= i < |dir| ==> search[i + 2] == dir[i];
    assert forall i :: 2 <= i < |search| ==> search[i] == dir[i - 2];
  }

  lemma BlankMeans(s: string)
    ensures HasBlank(s) <==> ' ' in s || '\t' in s
  {
  }

  lemma BareDir(dir: string)
    requires !HasBlank(dir)
    ensures (forall i :: 0 <= i < |dir| ==> !IsFieldSpace(dir[i])) <==> '\n' !in dir && '\r' !in dir
  {
  }

  lemma QuotedThenBare(f: string, last: string)
    requires IsBare(last)
    ensures Fields("'" + f + "'" + (" " + last)) == Some([f, last]) <==> '\'' !in f
  {
    LastField(last);
    QuotedField(f, " " + last);
    if '\'' !in f {
      assert [f] + [last] == [f, last];
    }
  }

  lemma BareThenBare(f: string, last: string)
    requires IsBare(last) && f != [] && !IsFieldSpace(f[0]) && f[0] != '\'' && f[0] != '"'
    ensures Fields(f + (" " + last)) == Some([f, last]) <==> IsBare(f)
  {
    LastField(last);
    BareField(f, " " + last);
    if IsBare(f) {
      assert [f] + [last] == [f, last];
    }
  }

  const LAST_FLAG := "-limbhgo"

  lemma LastFlagIsBare()
    ensures IsBare(LAST_FLAG)
  {
  }

  lemma LdflagsShape(dir: string)
    ensures LdflagsFor(dir) ==
            if HasBlank(dir) then "'" + ("-L" + dir) + "'" + (" " + LAST_FLAG) else "-L" + dir + (" " + LAST_FLAG)
  {
    SearchHas(dir);
    assert " " + LAST_FLAG == " -limbhgo";
  }

  /** cmd/go reads the flags back exactly when the directory's name meets DirOk. */
  lemma LdflagsSplitIff(dir: string)
    ensures Fields(LdflagsFor(dir)) == Some(FlagsOf(dir)) <==> DirOk(dir)
  {
    LastFlagIsBare();
    BlankMeans(dir);
    SearchHas(dir);
    LdflagsShape(dir);
    if HasBlank(dir) {
      QuotedThenBare("-L" + dir, LAST_FLAG);
    } else {
      BareDir(dir);
      BareThenBare("-L" + dir, LAST_FLAG);
    }
  }

  /** What a printed line leaves in the variable, shell by shell. */
  function Assigned(shell: Shell, line: string, name: string): Option<string> {
    match shell
    case Sh => ExportedValue(line, name)
    case Cmd => CmdValue(line, name)
    case PowerShell => PowerShellValue(line, name)
  }

  lemma EveryShellAssigns(shell: Shell, name: string, value: string)
    requires IsPlain(name)
    ensures Assigned(shell, EnvLine(shell, name, value), name) == Some(value)
  {
    match shell
    case Sh => EvalExports(name, value);
    case Cmd => CmdSets(name, value);
    case PowerShell => PowerShellAssigns(name, value);
  }

  lemma VariableIsPlain()
    ensures IsPlain("CGO_LDFLAGS")
  {
  }

  /** The documented contract end to end: the shell reads the printed line, then cmd/go splits the value. */
  lemma FlagsReachTheLinker(shell: Shell, dir: string)
    ensures var value := Assigned(shell, EnvLine(shell, "CGO_LDFLAGS", LdflagsFor(dir)), "CGO_LDFLAGS");
            value.Some? && (Fields(value.value) == Some(["-L" + dir, "-limbhgo"]) <==> DirOk(dir))
  {
    VariableIsPlain();
    EveryShellAssigns(shell, "CGO_LDFLAGS", LdflagsFor(dir));
    LdflagsSplitIff(dir);
  }

  /** Quoting just the path, inside the -L argument, never works for a path with a blank. */
  lemma QuotingThePathFails(dir: string)
    requires ' ' in dir || '\t' in dir
    ensures Fields("-L'" + dir + "' -limbhgo") != Some(FlagsOf(dir))
  {
    var i :| 0 <= i < |dir| && (dir[i] == ' ' || dir[i] == '\t');
    var s := "-L'" + dir + "' -limbhgo";
    var search := "-L" + dir;
    var n := Span(s, IsFieldSpace);
    assert s[0] == '-' && search[i + 2] == dir[i];
    assert Fields(s) == Prepend(s[..n], Fields(s[n..]));
    if i + 2 < n {
      assert !IsFieldSpace(s[i + 2]) && s[..n][i + 2] == s[i + 2];
    }
    assert s[..n] != search;
    assert FlagsOf(dir)[0] == search;
  }
}
