/** Shell words: quoting a word, and the command lines built from quoted
    words, read back by the quoting rules of sections 2.2.1 and 2.2.2 of the
    POSIX.1 Shell Command Language. */
module ShellWords {
  import opened Results
  import opened Text

  // ---- Printing ------------------------------------------------------------------------

  /** Every `'` as `'\''`. */
  function ReplaceQuotes(s: string): string {
    if s == [] then [] else (if s[0] == '\'' then "'\\''" else [s[0]]) + ReplaceQuotes(s[1..])
  }

  function ShellEscape(s: string): string {
    "'" + ReplaceQuotes(s) + "'"
  }

  function EscapeEach(words: seq<string>): (r: seq<string>)
    ensures |r| == |words| && forall i :: 0 <= i < |words| ==> r[i] == ShellEscape(words[i])
  {
    seq(|words|, i requires 0 <= i < |words| => ShellEscape(words[i]))
  }

  function ArgsSuffix(args: seq<string>): string {
    if args == [] then [] else " " + Join(EscapeEach(args), " ")
  }

  datatype Language = Shell | Python | JavaScript | TypeScript | Go

  /** The command that installs dependencies before the run, if the binary needs one. */
  function DepInstallPrefix(lang: Language, binary: string, deps: seq<string>): Option<string> {
    if deps == [] then None
    else if lang.Python? then
      if binary == "uv" then None
      else Some(Join([binary, "-m", "pip", "install", "-q"], " ") + " " + Join(EscapeEach(deps), " "))
    else if lang.JavaScript? || lang.TypeScript? then
      if binary == "bun" then Some(Join(["bun", "install"], " ") + " " + Join(EscapeEach(deps), " "))
      else if binary == "node" then Some(Join(["npm", "install", "--no-save"], " ") + " " + Join(EscapeEach(deps), " "))
      else None
    else None
  }

  function WithArgs(deps: seq<string>): string {
    Join(seq(|deps|, i requires 0 <= i < |deps| => "--with " + ShellEscape(deps[i])), " ")
  }

  /** The text that installs dependencies and runs the script file with one interpreter; `glue` parts the two. */
  function Invocation(lang: Language, binary: string, pre: seq<string>, deps: seq<string>, path: string,
                      args: seq<string>, glue: string): string {
    if binary == "uv" && deps != [] then
      binary + " run " + WithArgs(deps) + " " + ShellEscape(path) + ArgsSuffix(args)
    else
      var install := DepInstallPrefix(lang, binary, deps);
      (if install.Some? then install.value + glue else "")
      + binary + (if pre == [] then "" else " " + Join(pre, " ")) + " " + ShellEscape(path) + ArgsSuffix(args)
  }

  // ---- Reading -------------------------------------------------------------------------------

  datatype Quote = Unquoted | Backslash | SingleQuoted

  /** The reader between two characters: how the next one is quoted, the word begun, the words of the
      current command, the commands before it. */
  datatype Reader = Reader(quote: Quote, word: Option<string>, words: seq<string>, commands: seq<seq<string>>)
  {
    function Grown(c: char): Reader {
      this.(quote := Unquoted, word := Some((if word.Some? then word.value else []) + [c]))
    }

    function EndWord(): Reader {
      if word.None? then this else this.(word := None, words := words + [word.value])
    }

    function EndCommand(): Reader {
      var r := EndWord();
      if r.words == [] then r else r.(words := [], commands := commands + [r.words])
    }
  }

  /** A character with a meaning of its own outside quotes that these two sections do not give. */
  predicate HasOtherMeaning(c: char) {
    || c == '|' || c == '&' || c == ';' || c == '<' || c == '>' || c == '(' || c == ')' || c == '$' || c == '`'
    || c == '"' || c == '*' || c == '?' || c == '[' || c == '#' || c == '~' || c == '=' || c == '%'
  }

  /** One character; `None` when the shell would do more than read a word. */
  function Read(r: Reader, c: char): Option<Reader> {
    match r.quote
    case SingleQuoted =>
      Some(if c == '\'' then r.(quote := Unquoted) else r.Grown(c).(quote := SingleQuoted))
    case Backslash => Some(if c == '\n' then r.(quote := Unquoted) else r.Grown(c))
    case Unquoted =>
      if c == '\\' then Some(r.(quote := Backslash))
      else if c == '\'' then Some(r.(quote := SingleQuoted, word := Some(if r.word.Some? then r.word.value else [])))
      else if c == ' ' || c == '\t' then Some(r.EndWord())
      else if c == '\n' then Some(r.EndCommand())
      else if HasOtherMeaning(c) then None
      else Some(r.Grown(c))
  }

  function ReadAll(r: Reader, s: string): Option<Reader>
    decreases |s|
  {
    if s == [] then Some(r)
    else
      var next := Read(r, s[0]);
      if next.Some? then ReadAll(next.value, s[1..]) else None
  }

  /** The commands a text holds, each as its words. */
  function Commands(s: string): Option<seq<seq<string>>> {
    match ReadAll(Reader(Unquoted, None, [], []), s)
    case None => None
    case Some(r) => if r.quote == Unquoted then Some(r.EndCommand().commands) else None
  }

  lemma {:induction false} ReadConcat(r: Reader, a: string, b: string)
    requires ReadAll(r, a).Some?
    ensures ReadAll(r, a + b) == ReadAll(ReadAll(r, a).value, b)
    decreases |a|
  {
    hide Read;
    if a == [] {
      assert a + b == b;
    } else {
      assert (a + b)[1..] == a[1..] + b;
      ReadConcat(Read(r, a[0]).value, a[1..], b);
    }
  }

  // ---- One word --------------------------------------------------------------------------------

  lemma {:induction false} ReadQuotedBody(r: Reader, s: string)
    requires r.quote == SingleQuoted && r.word.Some?
    ensures ReadAll(r, ReplaceQuotes(s)) == Some(r.(word := Some(r.word.value + s)))
    decreases |s|
  {
    if s == [] {
      assert r.word.value + s == r.word.value;
    } else {
      var first := if s[0] == '\'' then "'\\''" else [s[0]];
      var grown := r.(word := Some(r.word.value + [s[0]]));
      ReadQuotedChar(r, s[0]);
      ReadConcat(r, first, ReplaceQuotes(s[1..]));
      ReadQuotedBody(grown, s[1..]);
      assert r.word.value + [s[0]] + s[1..] == r.word.value + s;
    }
  }

  lemma ReadQuotedChar(r: Reader, c: char)
    requires r.quote == SingleQuoted && r.word.Some?
    ensures ReadAll(r, if c == '\'' then "'\\''" else [c]) == Some(r.(word := Some(r.word.value + [c])))
  {
    if c == '\'' {
      var out := r.(quote := Unquoted);
      var s := "'\\''";
      assert s[1..] == "\\''" && s[1..][1..] == "''" && s[1..][1..][1..] == "'" && s[1..][1..][1..][1..] == "";
      assert Read(r, s[0]) == Some(out);
      var escaped := out.(quote := Backslash);
      assert Read(out, '\\') == Some(escaped);
      var grown := escaped.Grown('\'');
      assert Read(escaped, '\'') == Some(grown);
      assert Read(grown, '\'') == Some(grown.(quote := SingleQuoted));
      assert ReadAll(grown, "'") == Some(grown.(quote := SingleQuoted));
      assert ReadAll(escaped, "''") == ReadAll(grown, "'");
      assert ReadAll(out, "\\''") == ReadAll(escaped, "''");
    } else {
      assert [c][1..] == [];
      assert ReadAll(r.Grown(c).(quote := SingleQuoted), []) == Some(r.Grown(c).(quote := SingleQuoted));
    }
  }

  predicate Between(r: Reader) {
    r.quote == Unquoted && r.word.None?
  }

  /** A quoted word reads back as itself. */
  lemma ReadQuoted(r: Reader, s: string)
    requires Between(r)
    ensures ReadAll(r, ShellEscape(s)) == Some(r.(word := Some(s)))
  {
    var inside := r.(quote := SingleQuoted, word := Some([]));
    var body := ReplaceQuotes(s);
    assert ShellEscape(s)[1..] == body + "'";
    assert Read(r, '\'') == Some(inside);
    ReadQuotedBody(inside, s);
    ReadConcat(inside, body, "'");
    assert [] + s == s;
    var full := inside.(word := Some(s));
    assert "'"[1..] == [];
    assert ReadAll(full, "'") == Some(full.(quote := Unquoted));
  }

  /** A word that needs no quotes. */
  predicate IsPlain(s: string) {
    s != [] && forall i :: 0 <= i < |s| ==> IsPlainChar(s[i])
  }

  predicate IsPlainChar(c: char) {
    c != '\\' && c != '\'' && c != ' ' && c != '\t' && c != '\n' && !HasOtherMeaning(c)
  }

  lemma {:induction false} ReadPlainRest(r: Reader, s: string)
    requires r.quote == Unquoted && r.word.Some? && forall i :: 0 <= i < |s| ==> IsPlainChar(s[i])
    ensures ReadAll(r, s) == Some(r.(word := Some(r.word.value + s)))
    decreases |s|
  {
    hide HasOtherMeaning;
    if s == [] {
      assert r.word.value + s == r.word.value;
    } else {
      assert Read(r, s[0]) == Some(r.Grown(s[0]));
      ReadPlainRest(r.Grown(s[0]), s[1..]);
      assert r.word.value + [s[0]] + s[1..] == r.word.value + s;
    }
  }

  lemma ReadPlain(r: Reader, s: string)
    requires Between(r) && IsPlain(s)
    ensures ReadAll(r, s) == Some(r.(word := Some(s)))
  {
    hide HasOtherMeaning;
    assert Read(r, s[0]) == Some(r.Grown(s[0]));
    ReadPlainRest(r.Grown(s[0]), s[1..]);
    assert [s[0]] + s[1..] == s && [] + [s[0]] == [s[0]];
  }

  // ---- Lines of words ---------------------------------------------------------------------------

  /** A word as it is printed. */
  datatype Printed = Plain(word: string) | Quoted(word: string)
  {
    function Text(): string {
      if Plain? then word else ShellEscape(word)
    }

    predicate Readable() {
      Plain? ==> IsPlain(word)
    }
  }

  function Texts(ps: seq<Printed>): seq<string> {
    seq(|ps|, i requires 0 <= i < |ps| => ps[i].Text())
  }

  function WordsOf(ps: seq<Printed>): seq<string> {
    seq(|ps|, i requires 0 <= i < |ps| => ps[i].word)
  }

  function Line(ps: seq<Printed>): string {
    Join(Texts(ps), " ")
  }

  lemma ReadPrinted(r: Reader, p: Printed)
    requires Between(r) && p.Readable()
    ensures ReadAll(r, p.Text()) == Some(r.(word := Some(p.word)))
  {
    if p.Plain? { ReadPlain(r, p.word); } else { ReadQuoted(r, p.word); }
  }

  ghost predicate AllReadable(ps: seq<Printed>) {
    forall i :: 0 <= i < |ps| ==> ps[i].Readable()
  }

  /** A line reads as its words, the last of them still open. */
  lemma {:induction false} ReadLine(r: Reader, ps: seq<Printed>)
    requires Between(r) && ps != [] && AllReadable(ps)
    ensures ReadAll(r, Line(ps)) ==
      Some(r.(word := Some(ps[|ps| - 1].word), words := r.words + WordsOf(ps[..|ps| - 1])))
    decreases |ps|
  {
    hide ReadAll, Read, IsPlain;
    ReadPrinted(r, ps[0]);
    if |ps| == 1 {
      assert WordsOf(ps[..0]) == [] && r.words + [] == r.words;
    } else {
      var first, rest := ps[0], ps[1..];
      assert Texts(ps)[1..] == Texts(rest);
      var after := r.(word := Some(first.word));
      var next := r.(words := r.words + [first.word]);
      ReadSpace(after);
      ReadConcat(r, first.Text(), " ");
      ReadConcat(r, first.Text() + " ", Line(rest));
      ReadLine(next, rest);
      assert WordsOf(ps[..|ps| - 1]) == [first.word] + WordsOf(rest[..|rest| - 1]);
      assert r.words + [first.word] + WordsOf(rest[..|rest| - 1]) == r.words + WordsOf(ps[..|ps| - 1]);
    }
  }

  lemma ReadSpace(r: Reader)
    requires r.quote == Unquoted
    ensures ReadAll(r, " ") == Some(r.EndWord())
  {
    assert " "[1..] == [];
    assert ReadAll(r.EndWord(), []) == Some(r.EndWord());
  }

  lemma ReadNewline(r: Reader)
    requires r.quote == Unquoted
    ensures ReadAll(r, "\n") == Some(r.EndCommand())
  {
    assert "\n"[1..] == [];
    assert ReadAll(r.EndCommand(), []) == Some(r.EndCommand());
  }

  lemma AllWords(ps: seq<Printed>)
    requires ps != []
    ensures WordsOf(ps[..|ps| - 1]) + [ps[|ps| - 1].word] == WordsOf(ps)
  {}

  /** A line of printed words is one command of exactly those words. */
  lemma LineIsOneCommand(ps: seq<Printed>)
    requires ps != [] && AllReadable(ps)
    ensures Commands(Line(ps)) == Some([WordsOf(ps)])
  {
    hide ReadAll, Line, IsPlain, WordsOf;
    ReadLine(Reader(Unquoted, None, [], []), ps);
    AllWords(ps);
    assert [] + WordsOf(ps[..|ps| - 1]) == WordsOf(ps[..|ps| - 1]);
    assert [] + [WordsOf(ps)] == [WordsOf(ps)];
    assert |WordsOf(ps)| > 0;
  }

  /** The text between an installing line and the line that runs: a newline, then blanks. */
  predicate IsGlue(glue: string) {
    glue == "\n" || glue == "\n  "
  }

  lemma ReadGlue(r: Reader, glue: string)
    requires r.quote == Unquoted && IsGlue(glue)
    ensures ReadAll(r, glue) == Some(r.EndCommand())
  {
    hide ReadAll, Read;
    ReadNewline(r);
    if glue != "\n" {
      assert "\n" + " " == "\n " && "\n " + " " == "\n  ";
      ReadSpace(r.EndCommand());
      ReadConcat(r, "\n", " ");
      ReadConcat(r, "\n ", " ");
    }
  }

  /** Two lines are two commands. */
  lemma TwoLines(first: seq<Printed>, glue: string, second: seq<Printed>)
    requires first != [] && second != [] && AllReadable(first) && AllReadable(second) && IsGlue(glue)
    ensures Commands(Line(first) + glue + Line(second)) == Some([WordsOf(first), WordsOf(second)])
  {
    hide ReadAll, Line, IsPlain, WordsOf, IsGlue;
    var r := Reader(Unquoted, None, [], []);
    ReadLine(r, first);
    AllWords(first);
    AllWords(second);
    assert [] + WordsOf(first[..|first| - 1]) == WordsOf(first[..|first| - 1]);
    var mid := r.(word := Some(first[|first| - 1].word), words := WordsOf(first[..|first| - 1]));
    ReadConcat(r, Line(first), glue);
    ReadGlue(mid, glue);
    ReadConcat(r, Line(first) + glue, Line(second));
    var next := Reader(Unquoted, None, [], [WordsOf(first)]);
    assert [] + [WordsOf(first)] == [WordsOf(first)];
    assert mid.EndCommand() == next;
    ReadLine(next, second);
    assert [] + WordsOf(second[..|second| - 1]) == WordsOf(second[..|second| - 1]);
    assert [WordsOf(first)] + [WordsOf(second)] == [WordsOf(first), WordsOf(second)];
  }

  // ---- The command lines are lines of printed words ------------------------------------------------

  function QuoteAll(words: seq<string>): seq<Printed> {
    seq(|words|, i requires 0 <= i < |words| => Quoted(words[i]))
  }

  function PlainAll(words: seq<string>): seq<Printed> {
    seq(|words|, i requires 0 <= i < |words| => Plain(words[i]))
  }

  lemma LineConcat(a: seq<Printed>, b: seq<Printed>)
    requires a != [] && b != []
    ensures Line(a + b) == Line(a) + " " + Line(b)
  {
    assert Texts(a + b) == Texts(a) + Texts(b);
    JoinInOrder(Texts(a), Texts(b), " ");
  }

  lemma LineOfQuoted(words: seq<string>)
    ensures Line(QuoteAll(words)) == Join(EscapeEach(words), " ")
  {
    assert Texts(QuoteAll(words)) == EscapeEach(words);
  }

  lemma LineOfPlain(words: seq<string>)
    ensures Line(PlainAll(words)) == Join(words, " ")
  {
    assert Texts(PlainAll(words)) == words;
  }

  lemma LineOfOne(p: Printed)
    ensures Line([p]) == p.Text()
  {}

  /** The arguments, as many and as they are: nothing in them is ever read as anything but a word. */
  lemma ArgumentsReadBack(args: seq<string>)
    ensures Commands(Join(EscapeEach(args), " ")) == Some(if args == [] then [] else [args])
  {
    LineOfQuoted(args);
    if args != [] {
      LineIsOneCommand(QuoteAll(args));
      assert WordsOf(QuoteAll(args)) == args;
    } else {
      assert Join([], " ") == [];
    }
  }

  /** Appending arguments to a line appends exactly those words. */
  lemma SuffixAppends(ps: seq<Printed>, args: seq<string>)
    requires ps != []
    ensures Line(ps) + ArgsSuffix(args) == Line(ps + QuoteAll(args))
  {
    hide Line;
    if args == [] {
      assert ps + QuoteAll(args) == ps;
    } else {
      LineConcat(ps, QuoteAll(args));
      LineOfQuoted(args);
      assert Line(ps) + (" " + Line(QuoteAll(args))) == Line(ps) + " " + Line(QuoteAll(args));
    }
  }

  /** `--with d` for each dependency. */
  function WithWords(deps: seq<string>): seq<Printed> {
    if deps == [] then [] else [Plain("--with"), Quoted(deps[0])] + WithWords(deps[1..])
  }

  lemma LineOfOneWith(dep: string)
    ensures Line([Plain("--with"), Quoted(dep)]) == "--with " + ShellEscape(dep)
  {
    hide ShellEscape;
    LineConcat([Plain("--with")], [Quoted(dep)]);
    LineOfOne(Plain("--with"));
    LineOfOne(Quoted(dep));
    assert [Plain("--with"), Quoted(dep)] == [Plain("--with")] + [Quoted(dep)];
    assert "--with" + " " == "--with ";
  }

  lemma {:induction false} LineOfWith(deps: seq<string>)
    requires deps != []
    ensures WithWords(deps) != [] && AllReadable(WithWords(deps)) && Line(WithWords(deps)) == WithArgs(deps)
    decreases |deps|
  {
    hide ShellEscape, Line, IsPlain;
    var parts := seq(|deps|, i requires 0 <= i < |deps| => "--with " + ShellEscape(deps[i]));
    var first := [Plain("--with"), Quoted(deps[0])];
    LiteralsArePlain();
    LineOfOneWith(deps[0]);
    if |deps| > 1 {
      LineOfWith(deps[1..]);
      LineConcat(first, WithWords(deps[1..]));
      assert parts[1..] == seq(|deps[1..]|, i requires 0 <= i < |deps[1..]| => "--with " + ShellEscape(deps[1..][i]));
    } else {
      assert WithWords(deps[1..]) == [] && first + [] == first;
    }
  }

  lemma ReadableConcat(a: seq<Printed>, b: seq<Printed>)
    requires AllReadable(a) && AllReadable(b)
    ensures AllReadable(a + b)
  {}

  lemma PlainAndQuotedReadable(plain: seq<string>, quoted: seq<string>)
    requires forall i :: 0 <= i < |plain| ==> IsPlain(plain[i])
    ensures AllReadable(PlainAll(plain)) && AllReadable(QuoteAll(quoted))
    ensures WordsOf(PlainAll(plain) + QuoteAll(quoted)) == plain + quoted
  {
    hide IsPlain;
  }

  /** A command of plain words and dependencies. */
  lemma LineOfPrefix(words: seq<string>, deps: seq<string>)
    requires words != [] && deps != []
    ensures Line(PlainAll(words) + QuoteAll(deps)) == Join(words, " ") + " " + Join(EscapeEach(deps), " ")
  {
    hide Line, Join, IsPlain;
    LineConcat(PlainAll(words), QuoteAll(deps));
    LineOfPlain(words);
    LineOfQuoted(deps);
  }

  /** The words of the installing command, if there is one. */
  function InstallWords(lang: Language, binary: string): Option<seq<string>> {
    if lang.Python? then
      if binary == "uv" then None else Some([binary, "-m", "pip", "install", "-q"])
    else if lang.JavaScript? || lang.TypeScript? then
      if binary == "bun" then Some(["bun", "install"])
      else if binary == "node" then Some(["npm", "install", "--no-save"])
      else None
    else None
  }

  lemma InstallLine(lang: Language, binary: string, deps: seq<string>)
    requires IsPlain(binary) && deps != []
    ensures DepInstallPrefix(lang, binary, deps).Some? <==> InstallWords(lang, binary).Some?
    ensures InstallWords(lang, binary).Some? ==>
      var words := InstallWords(lang, binary).value;
      && words != [] && (forall i :: 0 <= i < |words| ==> IsPlain(words[i]))
      && DepInstallPrefix(lang, binary, deps).value == Join(words, " ") + " " + Join(EscapeEach(deps), " ")
  {
    hide EscapeEach, Join, IsPlain;
    LiteralsArePlain();
  }

  lemma LiteralsArePlain()
    ensures IsPlain("-m") && IsPlain("pip") && IsPlain("install") && IsPlain("-q")
    ensures IsPlain("bun") && IsPlain("npm") && IsPlain("--no-save") && IsPlain("run") && IsPlain("--with")
  {}

  /** The words of the command that runs the script. */
  function RunWords(binary: string, pre: seq<string>, deps: seq<string>, path: string): seq<Printed> {
    if binary == "uv" && deps != [] then [Plain(binary), Plain("run")] + WithWords(deps) + [Quoted(path)]
    else [Plain(binary)] + PlainAll(pre) + [Quoted(path)]
  }

  lemma RunLine(binary: string, pre: seq<string>, deps: seq<string>, path: string)
    requires IsPlain(binary) && forall i :: 0 <= i < |pre| ==> IsPlain(pre[i])
    ensures AllReadable(RunWords(binary, pre, deps, path))
    ensures Line(RunWords(binary, pre, deps, path)) ==
      if binary == "uv" && deps != [] then binary + " run " + WithArgs(deps) + " " + ShellEscape(path)
      else binary + (if pre == [] then "" else " " + Join(pre, " ")) + " " + ShellEscape(path)
  {
    hide ShellEscape, Line, WithArgs, IsPlain, AllReadable;
    OneReadable(binary, path);
    PlainAndQuotedReadable(pre, []);
    LineOfOne(Quoted(path));
    LineOfOne(Plain(binary));
    if binary == "uv" && deps != [] {
      UvRun(binary);
      LineOfWith(deps);
      ReadableConcat([Plain(binary), Plain("run")], WithWords(deps));
      ReadableConcat([Plain(binary), Plain("run")] + WithWords(deps), [Quoted(path)]);
      LineConcat([Plain(binary), Plain("run")], WithWords(deps));
      LineConcat([Plain(binary), Plain("run")] + WithWords(deps), [Quoted(path)]);
    } else {
      ReadableConcat([Plain(binary)], PlainAll(pre));
      ReadableConcat([Plain(binary)] + PlainAll(pre), [Quoted(path)]);
      BareRunLine(binary, pre, path);
    }
  }

  lemma OneReadable(binary: string, path: string)
    requires IsPlain(binary)
    ensures AllReadable([Plain(binary)]) && AllReadable([Plain(binary), Plain("run")]) && AllReadable([Quoted(path)])
  {
    LiteralsArePlain();
    hide IsPlain;
  }

  lemma BareRunLine(binary: string, pre: seq<string>, path: string)
    ensures Line([Plain(binary)] + PlainAll(pre) + [Quoted(path)])
         == binary + (if pre == [] then "" else " " + Join(pre, " ")) + " " + ShellEscape(path)
  {
    hide ShellEscape, Line, Join;
    LineOfOne(Quoted(path));
    LineOfOne(Plain(binary));
    if pre == [] {
      assert [Plain(binary)] + PlainAll(pre) == [Plain(binary)];
      LineConcat([Plain(binary)], [Quoted(path)]);
    } else {
      LineOfPlain(pre);
      LineConcat([Plain(binary)], PlainAll(pre));
      LineConcat([Plain(binary)] + PlainAll(pre), [Quoted(path)]);
      assert binary + (" " + Join(pre, " ")) == binary + " " + Join(pre, " ");
    }
  }

  lemma UvRun(binary: string)
    ensures IsPlain("run") && Line([Plain(binary), Plain("run")]) + " " == binary + " run "
  {
    LiteralsArePlain();
    hide IsPlain;
    LineConcat([Plain(binary)], [Plain("run")]);
    assert [Plain(binary), Plain("run")] == [Plain(binary)] + [Plain("run")];
    LineOfOne(Plain(binary));
    LineOfOne(Plain("run"));
  }

  /** What an interpreter's command text means: an optional install of exactly the dependencies, then one command that
      runs exactly the script path with exactly the arguments. */
  lemma InvocationReadsBack(lang: Language, binary: string, pre: seq<string>, deps: seq<string>, path: string,
                            args: seq<string>, glue: string)
    requires IsPlain(binary) && (forall i :: 0 <= i < |pre| ==> IsPlain(pre[i])) && IsGlue(glue)
    ensures var run := WordsOf(RunWords(binary, pre, deps, path)) + args;
      var install := if deps == [] || binary == "uv" then None else InstallWords(lang, binary);
      Commands(Invocation(lang, binary, pre, deps, path, args, glue))
        == Some(if install.Some? then [install.value + deps, run] else [run])
  {
    hide *;
    var words, run := RunWords(binary, pre, deps, path), RunWords(binary, pre, deps, path) + QuoteAll(args);
    RunLine(binary, pre, deps, path);
    RunWordsNotEmpty(binary, pre, deps, path);
    SuffixAppends(words, args);
    WithArguments(words, args);
    InvocationText(lang, binary, pre, deps, path, args, glue);
    NoInstall(lang, binary, deps);
    if deps == [] || binary == "uv" || InstallWords(lang, binary).None? {
      if deps != [] { InstallLine(lang, binary, deps); }
      LineIsOneCommand(run);
    } else {
      InstallLine(lang, binary, deps);
      var install := InstallWords(lang, binary).value;
      LineOfPrefix(install, deps);
      PlainAndQuotedReadable(install, deps);
      PrefixIsReadable(install, deps);
      TwoLines(PlainAll(install) + QuoteAll(deps), glue, run);
    }
  }

  lemma WithArguments(words: seq<Printed>, args: seq<string>)
    requires AllReadable(words)
    ensures AllReadable(words + QuoteAll(args)) && WordsOf(words + QuoteAll(args)) == WordsOf(words) + args
  {
    hide IsPlain;
  }

  lemma PrefixIsReadable(install: seq<string>, deps: seq<string>)
    requires install != [] && AllReadable(PlainAll(install)) && AllReadable(QuoteAll(deps))
    ensures PlainAll(install) + QuoteAll(deps) != [] && AllReadable(PlainAll(install) + QuoteAll(deps))
  {
    hide IsPlain;
  }

  lemma InvocationText(lang: Language, binary: string, pre: seq<string>, deps: seq<string>, path: string,
                       args: seq<string>, glue: string)
    requires IsPlain(binary) && forall i :: 0 <= i < |pre| ==> IsPlain(pre[i])
    ensures var run := Line(RunWords(binary, pre, deps, path)) + ArgsSuffix(args);
      var install := DepInstallPrefix(lang, binary, deps);
      Invocation(lang, binary, pre, deps, path, args, glue) ==
        if (binary == "uv" && deps != []) || install.None? then run else install.value + glue + run
  {
    hide *;
    RunLine(binary, pre, deps, path);
    if binary == "uv" && deps != [] {
      UvText(lang, binary, pre, deps, path, args, glue);
    } else {
      BareText(lang, binary, pre, deps, path, args, glue);
    }
  }

  lemma UvText(lang: Language, binary: string, pre: seq<string>, deps: seq<string>, path: string, args: seq<string>,
               glue: string)
    requires binary == "uv" && deps != []
    ensures Invocation(lang, binary, pre, deps, path, args, glue)
         == binary + " run " + WithArgs(deps) + " " + ShellEscape(path) + ArgsSuffix(args)
  {}

  lemma BareText(lang: Language, binary: string, pre: seq<string>, deps: seq<string>, path: string, args: seq<string>,
                 glue: string)
    requires !(binary == "uv" && deps != [])
    ensures var install := DepInstallPrefix(lang, binary, deps);
      var run := binary + (if pre == [] then "" else " " + Join(pre, " ")) + " " + ShellEscape(path) + ArgsSuffix(args);
      Invocation(lang, binary, pre, deps, path, args, glue) == if install.None? then run else install.value + glue + run
  {
    hide DepInstallPrefix, ShellEscape, ArgsSuffix, Join;
    var install := DepInstallPrefix(lang, binary, deps);
    var head := if install.Some? then install.value + glue else "";
    var middle := if pre == [] then "" else " " + Join(pre, " ");
    Regroup(head, binary, middle, " ", ShellEscape(path), ArgsSuffix(args));
  }

  lemma Regroup(a: string, b: string, c: string, d: string, e: string, f: string)
    ensures a + b + c + d + e + f == a + (b + c + d + e + f)
    ensures "" + (b + c + d + e + f) == b + c + d + e + f
  {}

  lemma RunWordsNotEmpty(binary: string, pre: seq<string>, deps: seq<string>, path: string)
    ensures RunWords(binary, pre, deps, path) != []
  {}

  lemma NoInstall(lang: Language, binary: string, deps: seq<string>)
    ensures deps == [] || binary == "uv" ==> DepInstallPrefix(lang, binary, deps).None?
  {}
}
