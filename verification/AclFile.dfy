/**
The file of users: every user on a line of its own, written by ACL SAVE and read by ACL LOAD.

Reading takes the file apart at newlines, trims each line, takes it apart at blanks and trims
the words.  `SaveLoadExactly` says for which users reading what was written restores them.
*/
module AclFile {
  import opened Options
  import opened Acl
  import opened AclDescribe

  // ------------------------------------------------------------------- trimming, splitting

  function TrimLeft(s: string, cset: string): string {
    if s != "" && s[0] in cset then TrimLeft(s[1..], cset) else s
  }

  function TrimRight(s: string, cset: string): string {
    if s != "" && s[|s| - 1] in cset then TrimRight(s[..|s| - 1], cset) else s
  }

  function Trim(s: string, cset: string): string {
    TrimRight(TrimLeft(s, cset), cset)
  }

  method SdsTrim(s: string, cset: string) returns (r: string)
    ensures r == Trim(s, cset)
  {
    var sp: nat, ep: nat := 0, |s|;
    while sp < |s| && s[sp] in cset
      invariant sp <= |s| && TrimLeft(s, cset) == TrimLeft(s[sp..], cset)
    {
      assert s[sp..][1..] == s[sp + 1..];
      sp := sp + 1;
    }
    assert TrimLeft(s, cset) == s[sp..];
    assert s[sp..ep] == s[sp..];
    while ep > sp && s[ep - 1] in cset
      invariant sp <= ep <= |s| && Trim(s, cset) == TrimRight(s[sp..ep], cset)
    {
      assert s[sp..ep][..ep - sp - 1] == s[sp..ep - 1];
      ep := ep - 1;
    }
    r := s[sp..ep];
  }

  // The pieces between separators; an empty text has one empty piece.
  function Pieces(s: string, sep: char): (ops: seq<string>)
    ensures ops != []
  {
    if s == "" then [""]
    else
      var ops, c := Pieces(s[..|s| - 1], sep), s[|s| - 1];
      if c == sep then ops + [""] else ops[|ops| - 1 := ops[|ops| - 1] + [c]]
  }

  // But the program finds no piece in an empty text.
  function Split(s: string, sep: char): seq<string> {
    if s == "" then [] else Pieces(s, sep)
  }

  method SdsSplit(s: string, sep: char) returns (tokens: seq<string>)
    ensures tokens == Split(s, sep)
  {
    tokens := [];
    if s == "" {
      return;
    }
    var start: nat := 0;
    for j := 0 to |s|
      invariant start <= j && Pieces(s[..j], sep) == tokens + [s[start..j]]
    {
      assert s[..j + 1][..j] == s[..j] && s[..j + 1][j] == s[j];
      if s[j] == sep {
        tokens := tokens + [s[start..j]];
        start := j + 1;
        assert s[start..j + 1] == "";
      } else {
        assert s[start..j + 1] == s[start..j] + [s[j]];
        assert (tokens + [s[start..j]])[|tokens| := s[start..j + 1]] == tokens + [s[start..j + 1]];
      }
    }
    assert s[..|s|] == s;
    tokens := tokens + [s[start..]];
  }

  // One separator between neighbours.
  function Join(ops: seq<string>, sep: char): string {
    if ops == [] then "" else if |ops| == 1 then ops[0] else Join(ops[..|ops| - 1], sep) + [sep] + ops[|ops| - 1]
  }

  lemma {:induction false} PiecesGrow(s: string, w: string, sep: char)
    requires sep !in w
    ensures Pieces(s + w, sep) == Pieces(s, sep)[|Pieces(s, sep)| - 1 := Pieces(s, sep)[|Pieces(s, sep)| - 1] + w]
    decreases |w|
  {
    var ops := Pieces(s, sep);
    if w == "" {
      assert s + w == s;
      assert ops[|ops| - 1] + w == ops[|ops| - 1];
    } else {
      var w1, c := w[..|w| - 1], w[|w| - 1];
      assert w == w1 + [c];
      PiecesGrow(s, w1, sep);
      assert (s + w)[..|s + w| - 1] == s + w1;
      assert ops[|ops| - 1] + w == ops[|ops| - 1] + w1 + [c];
    }
  }

  lemma {:induction false} PiecesJoin(ops: seq<string>, sep: char)
    requires ops != [] && forall i :: 0 <= i < |ops| ==> sep !in ops[i]
    ensures Pieces(Join(ops, sep), sep) == ops
    decreases |ops|
  {
    var front, last := ops[..|ops| - 1], ops[|ops| - 1];
    assert ops == front + [last];
    if front == [] {
      PiecesGrow("", last, sep);
      assert "" + last == last;
    } else {
      PiecesJoin(front, sep);
      var s := Join(front, sep) + [sep];
      assert s[..|s| - 1] == Join(front, sep);
      PiecesGrow(s, last, sep);
    }
  }

  // A character the text lacks is in no piece, and the separator is in none either.
  lemma {:induction false} PiecesLack(s: string, sep: char, c: char)
    requires c == sep || c !in s
    ensures forall i :: 0 <= i < |Pieces(s, sep)| ==> c !in Pieces(s, sep)[i]
  {
    if s != "" {
      PiecesLack(s[..|s| - 1], sep, c);
    }
  }

  lemma {:induction false} JoinLacks(ops: seq<string>, sep: char, c: char)
    requires ops != [] && c != sep && forall i :: 0 <= i < |ops| ==> c !in ops[i]
    ensures c !in Join(ops, sep)
    decreases |ops|
  {
    if |ops| > 1 {
      JoinLacks(ops[..|ops| - 1], sep, c);
    }
  }

  lemma {:induction false} TrimLeftFacts(s: string, cset: string)
    ensures var r := TrimLeft(s, cset);
            (r != "" ==> r[0] !in cset) && (forall c :: c !in s ==> c !in r)
  {
    if s != "" && s[0] in cset {
      TrimLeftFacts(s[1..], cset);
    }
  }

  lemma {:induction false} TrimRightFacts(s: string, cset: string)
    ensures var r := TrimRight(s, cset);
            (r != "" ==> s != "" && r[0] == s[0] && r[|r| - 1] !in cset) && (forall c :: c !in s ==> c !in r)
  {
    if s != "" && s[|s| - 1] in cset {
      TrimRightFacts(s[..|s| - 1], cset);
    }
  }

  lemma TrimFacts(s: string, cset: string)
    ensures var r := Trim(s, cset);
            (r != "" ==> r[0] !in cset && r[|r| - 1] !in cset) && (forall c :: c !in s ==> c !in r)
    ensures s != "" && s[0] !in cset && s[|s| - 1] !in cset ==> Trim(s, cset) == s
  {
    TrimLeftFacts(s, cset);
    TrimRightFacts(TrimLeft(s, cset), cset);
  }

  // -------------------------------------------------------------------------- reading

  const LINE_ENDS := " \t\r\n"
  const WORD_ENDS := "\t\r\n"

  // The keyword and the name are not trimmed.
  function TrimWords(argv: seq<string>): seq<string> {
    seq(|argv|, j requires 0 <= j < |argv| => if j < 2 then argv[j] else Trim(argv[j], WORD_ENDS))
  }

  // Blank lines are skipped.
  function ReadLine(line: string): seq<seq<string>> {
    var text := Trim(line, LINE_ENDS);
    if text == "" then [] else [TrimWords(Split(text, ' '))]
  }

  function ReadLines(lines: seq<string>): seq<seq<string>> {
    if lines == [] then [] else ReadLines(lines[..|lines| - 1]) + ReadLine(lines[|lines| - 1])
  }

  function ReadFile(text: string): seq<seq<string>> {
    ReadLines(Split(text, '\n'))
  }

  method TrimRules(words: seq<string>) returns (argv: seq<string>)
    ensures argv == TrimWords(words)
  {
    argv := words;
    var j: nat := 2;
    while j < |argv|
      invariant |argv| == |words|
      invariant forall k :: 0 <= k < |argv| ==>
                  argv[k] == if 2 <= k < j then Trim(words[k], WORD_ENDS) else words[k]
    {
      var word := SdsTrim(argv[j], WORD_ENDS);
      argv := argv[j := word];
      j := j + 1;
    }
  }

  method ReadUsers(text: string) returns (argvs: seq<seq<string>>)
    ensures argvs == ReadFile(text)
  {
    hide Trim, TrimWords, Split;
    var lines := SdsSplit(text, '\n');
    argvs := [];
    for i := 0 to |lines|
      invariant argvs == ReadLines(lines[..i])
    {
      assert lines[..i + 1][..i] == lines[..i];
      var line := SdsTrim(lines[i], LINE_ENDS);
      if line == "" {
        continue;
      }
      var words := SdsSplit(line, ' ');
      var argv := TrimRules(words);
      argvs := argvs + [argv];
    }
    assert lines[..|lines|] == lines;
  }

  // What the words of a line can look like.
  predicate CleanRules(argv: seq<string>) {
    forall j :: 2 <= j < |argv| ==> Clean(argv[j])
  }

  lemma LineClean(line: string)
    requires '\n' !in line
    ensures forall i :: 0 <= i < |ReadLine(line)| ==> CleanRules(ReadLine(line)[i])
  {
    var text := Trim(line, LINE_ENDS);
    TrimFacts(line, LINE_ENDS);
    if text != "" {
      var argv := Split(text, ' ');
      PiecesLack(text, ' ', ' ');
      PiecesLack(text, ' ', '\n');
      forall j | 2 <= j < |argv| ensures Clean(TrimWords(argv)[j]) {
        TrimFacts(argv[j], WORD_ENDS);
      }
    }
  }

  lemma {:induction false} LinesClean(lines: seq<string>)
    requires forall i :: 0 <= i < |lines| ==> '\n' !in lines[i]
    ensures forall i :: 0 <= i < |ReadLines(lines)| ==> CleanRules(ReadLines(lines)[i])
    decreases |lines|
  {
    hide ReadLine, CleanRules;
    if lines != [] {
      LinesClean(lines[..|lines| - 1]);
      LineClean(lines[|lines| - 1]);
    }
  }

  // Whatever the file, the rules read from it are clean.
  lemma ReadsClean(text: string)
    ensures forall i :: 0 <= i < |ReadFile(text)| ==> CleanRules(ReadFile(text)[i])
  {
    hide CleanRules;
    if text != "" {
      PiecesLack(text, '\n', '\n');
      LinesClean(Split(text, '\n'));
    }
  }

  // -------------------------------------------------------------------------- writing

  function Save(argvs: seq<seq<string>>): string {
    if argvs == [] then "" else Save(argvs[..|argvs| - 1]) + Join(argvs[|argvs| - 1], ' ') + "\n"
  }

  // A keyword, a name and at least one rule.
  predicate UserLine(argv: seq<string>) {
    && |argv| >= 3 && argv[0] == "user" && !HasSpaces(argv[1])
    && forall j :: 2 <= j < |argv| ==> argv[j] != ""
  }

  lemma WordsUnbroken(argv: seq<string>)
    requires UserLine(argv) && CleanRules(argv)
    ensures forall j :: 0 <= j < |argv| ==> ' ' !in argv[j] && '\n' !in argv[j]
    ensures TrimWords(argv) == argv
  {
    assert forall k :: 0 <= k < |argv[1]| ==> !Space(argv[1][k]);
    forall j | 2 <= j < |argv| ensures Trim(argv[j], WORD_ENDS) == argv[j] {
      assert Clean(argv[j]);
      TrimFacts(argv[j], WORD_ENDS);
    }
  }

  lemma {:induction false} JoinEnds(ops: seq<string>, sep: char)
    requires ops != [] && ops[0] != "" && ops[|ops| - 1] != ""
    ensures var s := Join(ops, sep);
            s != "" && s[0] == ops[0][0] && s[|s| - 1] == ops[|ops| - 1][|ops[|ops| - 1]| - 1]
    ensures |ops| > 1 ==> |Join(ops, sep)| > 1
  {
    var last := ops[|ops| - 1];
    if |ops| > 1 {
      JoinStart(ops[..|ops| - 1], sep);
    }
  }

  lemma {:induction false} JoinStart(ops: seq<string>, sep: char)
    requires ops != [] && ops[0] != ""
    ensures Join(ops, sep) != "" && Join(ops, sep)[0] == ops[0][0]
    decreases |ops|
  {
    if |ops| > 1 {
      JoinStart(ops[..|ops| - 1], sep);
    }
  }

  lemma LineReadBack(argv: seq<string>)
    requires UserLine(argv) && CleanRules(argv)
    ensures '\n' !in Join(argv, ' ') && ReadLine(Join(argv, ' ')) == [argv]
  {
    var line := Join(argv, ' ');
    WordsUnbroken(argv);
    JoinLacks(argv, ' ', '\n');
    JoinEnds(argv, ' ');
    assert Clean(argv[|argv| - 1]);
    assert line[0] == 'u' && line[|line| - 1] !in LINE_ENDS;
    TrimFacts(line, LINE_ENDS);
    PiecesJoin(argv, ' ');
  }

  // One more line in the file.
  lemma OneMoreLine(text: string, line: string, ps: seq<string>)
    requires '\n' !in line && Pieces(text, '\n') == ps + [""]
    ensures Pieces(text + line + "\n", '\n') == ps + [line] + [""]
  {
    PiecesGrow(text, line, '\n');
    var s := text + line;
    assert (s + "\n")[..|s|] == s;
    assert "" + line == line;
    assert Pieces(s, '\n') == ps + [line];
  }

  function Lines(argvs: seq<seq<string>>): seq<string> {
    seq(|argvs|, i requires 0 <= i < |argvs| => Join(argvs[i], ' '))
  }

  lemma {:induction false} SavedLines(argvs: seq<seq<string>>)
    requires forall i :: 0 <= i < |argvs| ==> '\n' !in Join(argvs[i], ' ')
    ensures Pieces(Save(argvs), '\n') == Lines(argvs) + [""]
    decreases |argvs|
  {
    hide Join, Pieces;
    if argvs == [] {
      assert Pieces("", '\n') == [""] by { NoPieces(); }
    } else {
      var n := |argvs| - 1;
      SavedLines(argvs[..n]);
      OneMoreLine(Save(argvs[..n]), Join(argvs[n], ' '), Lines(argvs[..n]));
      assert Lines(argvs) == Lines(argvs[..n]) + [Join(argvs[n], ' ')];
    }
  }

  lemma NoPieces()
    ensures Pieces("", '\n') == [""]
  {}

  lemma {:induction false} LinesReadBack(argvs: seq<seq<string>>)
    requires forall i :: 0 <= i < |argvs| ==> ReadLine(Join(argvs[i], ' ')) == [argvs[i]]
    ensures ReadLines(Lines(argvs)) == argvs
    decreases |argvs|
  {
    hide ReadLine, Join;
    if argvs != [] {
      var n := |argvs| - 1;
      LinesReadBack(argvs[..n]);
      assert Lines(argvs)[..n] == Lines(argvs[..n]);
      assert argvs == argvs[..n] + [argvs[n]];
    }
  }

  lemma CleanFileReadBack(argvs: seq<seq<string>>)
    requires forall i :: 0 <= i < |argvs| ==> UserLine(argvs[i]) && CleanRules(argvs[i])
    ensures ReadFile(Save(argvs)) == argvs
  {
    hide ReadLine, UserLine, CleanRules, Join, Pieces;
    forall i | 0 <= i < |argvs|
      ensures '\n' !in Join(argvs[i], ' ') && ReadLine(Join(argvs[i], ' ')) == [argvs[i]]
    {
      LineReadBack(argvs[i]);
    }
    SavedLines(argvs);
    LinesReadBack(argvs);
    BlankLine();
    var ls := Lines(argvs);
    assert (ls + [""])[..|ls|] == ls;
  }

  /** The file is read back as it was written exactly when every rule in it is clean. */
  lemma ReadSavedExactly(argvs: seq<seq<string>>)
    requires forall i :: 0 <= i < |argvs| ==> UserLine(argvs[i])
    ensures ReadFile(Save(argvs)) == argvs <==> forall i :: 0 <= i < |argvs| ==> CleanRules(argvs[i])
  {
    hide UserLine, CleanRules, ReadFile, Save;
    ReadsClean(Save(argvs));
    if forall i :: 0 <= i < |argvs| ==> CleanRules(argvs[i]) {
      CleanFileReadBack(argvs);
    }
  }

  lemma BlankLine()
    ensures ReadLine("") == []
  {}

  // -------------------------------------------------------------------------- loading

  type Users = map<string, User>

  // The user "default" as the server creates it.
  function FirstDefault(t: Table): User {
    User(Profile(true, false, true, true, true, false, false, [], [], []), Rights(AllBits(t.bits, true), map[], true))
  }

  // One line.  The rules are tried on a reset user first; then they are given to a new user,
  // or to the existing one after a reset.
  function LoadLine(t: Table, cfg: Config, us: Users, argv: seq<string>): Option<Users> {
    if |argv| < 2 || argv[0] != "user" || HasSpaces(argv[1]) then None
    else if SetAll(t, cfg, BlankUser(t, cfg, true), argv[2..]).Err? then None
    else
      match SetAll(t, cfg, BlankUser(t, cfg, argv[1] in us), argv[2..])
      case Ok(u) => Some(us[argv[1] := u])
      case Err(_) => None
  }

  // With one line in error nothing is loaded.
  function LoadLines(t: Table, cfg: Config, argvs: seq<seq<string>>): Option<Users> {
    if argvs == [] then Some(map["default" := FirstDefault(t)])
    else
      match LoadLines(t, cfg, argvs[..|argvs| - 1])
      case None => None
      case Some(us) => LoadLine(t, cfg, us, argvs[|argvs| - 1])
  }

  function Load(t: Table, cfg: Config, text: string): Option<Users> {
    LoadLines(t, cfg, ReadFile(text))
  }

  // Profiles that differ in one flag at most.
  predicate Akin(p: Profile, q: Profile) {
    p.(sanitize := q.sanitize) == q
  }

  lemma AkinStep(cfg: Config, p: Profile, q: Profile, r: Rule)
    requires Akin(p, q)
    ensures var a, b := ApplyToProfile(cfg, p, r), ApplyToProfile(cfg, q, r);
            a.Ok? == b.Ok? && (a.Ok? ==> Akin(a.value, b.value))
  {
    hide Add, Remove, HashOk, HasSpaces;
  }

  lemma {:induction false} AkinAll(t: Table, cfg: Config, u: User, v: User, rs: seq<Rule>)
    requires Akin(u.profile, v.profile) && u.rights == v.rights
    ensures var a, b := ApplyAll(t, cfg, u, rs), ApplyAll(t, cfg, v, rs);
            a.Ok? == b.Ok? && (a.Ok? ==> Akin(a.value.profile, b.value.profile) && a.value.rights == b.value.rights)
    decreases |rs|
  {
    hide ApplyToProfile, ApplyToRights, Akin;
    if rs != [] {
      AkinAll(t, cfg, u, v, rs[..|rs| - 1]);
      var a, b := ApplyAll(t, cfg, u, rs[..|rs| - 1]), ApplyAll(t, cfg, v, rs[..|rs| - 1]);
      if a.Ok? {
        AkinStep(cfg, a.value.profile, b.value.profile, rs[|rs| - 1]);
      }
    }
  }

  /** Rules that the trial accepts are accepted again, as the program asserts. */
  lemma TrialSuffices(t: Table, cfg: Config, us: Users, argv: seq<string>)
    requires |argv| >= 2 && argv[0] == "user" && !HasSpaces(argv[1])
    ensures LoadLine(t, cfg, us, argv).Some? == SetAll(t, cfg, BlankUser(t, cfg, true), argv[2..]).Ok?
  {
    hide ApplyAll, ParseAll;
    AkinAll(t, cfg, BlankUser(t, cfg, true), BlankUser(t, cfg, argv[1] in us), ParseAll(argv[2..]));
  }

  predicate LineOk(t: Table, cfg: Config, argv: seq<string>) {
    && |argv| >= 2 && argv[0] == "user" && !HasSpaces(argv[1])
    && SetAll(t, cfg, BlankUser(t, cfg, true), argv[2..]).Ok?
  }

  ghost predicate Names(argvs: seq<seq<string>>, name: string) {
    exists i :: 0 <= i < |argvs| && |argvs[i]| >= 2 && argvs[i][1] == name
  }

  // The user that line i leaves behind; it was there before if it is the default user or an
  // earlier line has its name.
  ghost predicate LeftBy(t: Table, cfg: Config, argvs: seq<seq<string>>, i: nat, us: Users)
    requires i < |argvs| && |argvs[i]| >= 2
  {
    var name := argvs[i][1];
    && name in us
    && SetAll(t, cfg, BlankUser(t, cfg, name == "default" || Names(argvs[..i], name)), argvs[i][2..]) == Ok(us[name])
  }

  // No later line has the same name.
  ghost predicate Final(argvs: seq<seq<string>>, i: nat)
    requires i < |argvs| && |argvs[i]| >= 2
  {
    forall j :: i < j < |argvs| && |argvs[j]| >= 2 ==> argvs[j][1] != argvs[i][1]
  }

  ghost predicate Loaded(t: Table, cfg: Config, argvs: seq<seq<string>>, us: Users) {
    && (forall n :: n in us <==> n == "default" || Names(argvs, n))
    && (!Names(argvs, "default") ==> us["default"] == FirstDefault(t))
    && (forall i :: 0 <= i < |argvs| && |argvs[i]| >= 2 && Final(argvs, i) ==> LeftBy(t, cfg, argvs, i, us))
  }

  /** A file is loaded if and only if every line of it is in order, and then as a whole: every
      user is what the last line with its name makes of it. */
  lemma {:induction false} LoadExactly(t: Table, cfg: Config, argvs: seq<seq<string>>)
    ensures LoadLines(t, cfg, argvs).Some? <==> forall i :: 0 <= i < |argvs| ==> LineOk(t, cfg, argvs[i])
    ensures LoadLines(t, cfg, argvs).Some? ==> Loaded(t, cfg, argvs, LoadLines(t, cfg, argvs).value)
    decreases |argvs|
  {
    hide LineOk, Loaded, LoadLine;
    if argvs == [] {
      NothingLoaded(t, cfg);
    } else {
      var n := |argvs| - 1;
      LoadExactly(t, cfg, argvs[..n]);
      assert forall i :: 0 <= i < n ==> argvs[..n][i] == argvs[i];
      if LoadLines(t, cfg, argvs[..n]).Some? {
        var us := LoadLines(t, cfg, argvs[..n]).value;
        LineLoads(t, cfg, us, argvs[n]);
        if LoadLines(t, cfg, argvs).Some? {
          OneMoreUser(t, cfg, argvs, us, LoadLines(t, cfg, argvs).value);
        }
      }
    }
  }

  lemma NothingLoaded(t: Table, cfg: Config)
    ensures Loaded(t, cfg, [], map["default" := FirstDefault(t)])
  {
  }

  lemma LineLoads(t: Table, cfg: Config, us: Users, argv: seq<string>)
    ensures LoadLine(t, cfg, us, argv).Some? <==> LineOk(t, cfg, argv)
  {
    hide SetAll, HasSpaces;
    if |argv| >= 2 && argv[0] == "user" && !HasSpaces(argv[1]) {
      TrialSuffices(t, cfg, us, argv);
    }
  }

  lemma NamesOneMore(argvs: seq<seq<string>>, name: string)
    requires argvs != []
    ensures var n := |argvs| - 1;
            Names(argvs, name) <==> Names(argvs[..n], name) || (|argvs[n]| >= 2 && argvs[n][1] == name)
  {
    var n := |argvs| - 1;
    assert forall i :: 0 <= i < n ==> argvs[..n][i] == argvs[i];
  }

  lemma OneMoreUser(t: Table, cfg: Config, argvs: seq<seq<string>>, us: Users, us': Users)
    requires argvs != [] && Loaded(t, cfg, argvs[..|argvs| - 1], us)
    requires LoadLine(t, cfg, us, argvs[|argvs| - 1]) == Some(us')
    ensures Loaded(t, cfg, argvs, us')
  {
    hide SetAll, HasSpaces, Names;
    var n := |argvs| - 1;
    var front, name := argvs[..n], argvs[n][1];
    forall x ensures Names(argvs, x) <==> Names(front, x) || x == name {
      NamesOneMore(argvs, x);
    }
    forall i | 0 <= i < |argvs| && |argvs[i]| >= 2 && Final(argvs, i) ensures LeftBy(t, cfg, argvs, i, us') {
      if i < n {
        assert front[i] == argvs[i] && front[..i] == argvs[..i];
        assert Final(front, i) by {
          forall j | i < j < n && |front[j]| >= 2 ensures front[j][1] != front[i][1] {
            assert front[j] == argvs[j];
          }
        }
        assert LeftBy(t, cfg, front, i, us);
      }
    }
  }

  lemma OneLine(line: string)
    requires line != "" && '\n' !in line
    ensures ReadFile(line) == ReadLine(line)
  {
    hide ReadLine;
    PiecesGrow("", line, '\n');
    assert "" + line == line;
    var lines := [line];
    assert Split(line, '\n') == lines;
    assert lines[..0] == [] && ReadLines(lines[..0]) == [];
    assert ReadLines(lines) == [] + ReadLine(line);
  }

  /** Rules are trimmed but names are not: a name with a tab in it, or another blank that does
      not separate words, spoils the file. */
  lemma NameNotTrimmed(t: Table, cfg: Config, name: string, rule: string)
    requires ' ' !in name && '\n' !in name && HasSpaces(name) && rule != "" && Clean(rule)
    ensures Load(t, cfg, Join(["user", name, rule], ' ')) == None
  {
    var argv := ["user", name, rule];
    var line := Join(argv, ' ');
    JoinLacks(argv, ' ', '\n');
    JoinEnds(argv, ' ');
    assert line[0] == 'u' && line[|line| - 1] !in LINE_ENDS;
    TrimFacts(line, LINE_ENDS);
    PiecesJoin(argv, ' ');
    hide Join, Trim, HasSpaces, Pieces, Clean;
    OneLine(line);
    var words := TrimWords(argv);
    assert words[1] == name && ReadLine(line) == [words];
    assert !LineOk(t, cfg, [words][0]);
    LoadExactly(t, cfg, [words]);
  }

  /** The first default user is a new one that was given five rules. */
  lemma DefaultByRules(t: Table, cfg: Config)
    ensures ApplyAll(t, cfg, NewUser(t, cfg), [AllCommands, AllKeys, AllChannels, On, NoPass]) == Ok(FirstDefault(t))
  {
    var rules := [AllCommands, AllKeys, AllChannels, On, NoPass];
    var u := NewUser(t, cfg);
    hide ApplyAll;
    TwoRules(t, cfg, u, AllCommands, AllKeys, u.(rights := FirstDefault(t).rights));
    var u2 := Apply(t, cfg, u.(rights := FirstDefault(t).rights), AllKeys).value;
    var u4 := Apply(t, cfg, Apply(t, cfg, u2, AllChannels).value, On).value;
    TwoRules(t, cfg, u2, AllChannels, On, Apply(t, cfg, u2, AllChannels).value);
    ApplyConcat(t, cfg, u, [AllCommands, AllKeys], [AllChannels, On], u2);
    assert [AllCommands, AllKeys] + [AllChannels, On] == rules[..4];
    OneRule(t, cfg, u4, NoPass);
    ApplyConcat(t, cfg, u, rules[..4], [NoPass], u4);
    assert rules[..4] + [NoPass] == rules;
  }

  // ------------------------------------------------------------- clean rules, clean users

  lemma {:induction false} CategorySubs(cs: seq<Command>, w: Rights, cat: nat, v: bool, x: string)
    requires HasSub(SetCategory(cs, w, cat, v), x)
    ensures HasSub(w, x)
    decreases |cs|
  {
    if cs != [] {
      var w1 := SetCategory(cs[..|cs| - 1], w, cat, v);
      assert HasSub(w1, x);
      CategorySubs(cs[..|cs| - 1], w, cat, v, x);
    }
  }

  // A rule adds no subcommand but its own.
  lemma RuleSubs(t: Table, w: Rights, r: Rule, x: string)
    requires ApplyToRights(t, w, r).Ok? && HasSub(ApplyToRights(t, w, r).value, x)
    ensures HasSub(w, x) || (r.AllowSub? && x == r.sub)
  {
    hide Find, FindCategory, SetCategory, Listed;
    if r.Category? {
      CategorySubs(t.commands, w, FindCategory(t.categories, r.name, 0).value, r.on, x);
    } else {
      var w' := ApplyToRights(t, w, r).value;
      var id :| id in w'.subs && x in w'.subs[id];
      if id in w.subs && x in w.subs[id] {
        assert HasSub(w, x);
      }
    }
  }

  lemma RuleKeepsClean(t: Table, w: Rights, r: Rule)
    requires SubsClean(w) && ApplyToRights(t, w, r).Ok? && (r.AllowSub? ==> Unbroken(r.sub) && CleanEnd(r.sub))
    ensures SubsClean(ApplyToRights(t, w, r).value)
  {
    hide ApplyToRights, HasSub, Unbroken, CleanEnd;
    var w' := ApplyToRights(t, w, r).value;
    forall x | HasSub(w', x) ensures Unbroken(x) && CleanEnd(x) {
      RuleSubs(t, w, r, x);
    }
  }

  lemma ParseClean(op: string)
    requires Clean(op) && Parse(op).AllowSub?
    ensures Unbroken(Parse(op).sub) && CleanEnd(Parse(op).sub)
  {
    hide Keyword, Lower;
    var rest := op[1..];
    var sub := Parse(op).sub;
    assert sub == rest[Bar(rest) + 1..] == op[Bar(rest) + 2..];
    assert forall c :: c in sub ==> c in op;
  }

  lemma {:induction false} CleanRulesCleanUser(t: Table, cfg: Config, u: User, ops: seq<string>)
    requires SubsClean(u.rights) && forall i :: 0 <= i < |ops| ==> Clean(ops[i])
    requires SetAll(t, cfg, u, ops).Ok?
    ensures SubsClean(SetAll(t, cfg, u, ops).value.rights)
    decreases |ops|
  {
    hide ApplyToProfile, ApplyToRights, SubsClean, Clean, Parse, Unbroken, CleanEnd;
    if ops != [] {
      var front, r := ops[..|ops| - 1], Parse(ops[|ops| - 1]);
      assert ParseAll(ops)[..|ops| - 1] == ParseAll(front);
      CleanRulesCleanUser(t, cfg, u, front);
      if r.AllowSub? {
        ParseClean(ops[|ops| - 1]);
      }
      RuleKeepsClean(t, SetAll(t, cfg, u, front).value.rights, r);
    }
  }

  ghost predicate AllClean(us: Users) {
    forall n :: n in us ==> SubsClean(us[n].rights)
  }

  lemma NoSubsClean(w: Rights)
    requires w.subs == map[]
    ensures SubsClean(w)
  {}

  lemma {:induction false} LoadedClean(t: Table, cfg: Config, argvs: seq<seq<string>>)
    requires forall i :: 0 <= i < |argvs| ==> CleanRules(argvs[i])
    requires LoadLines(t, cfg, argvs).Some?
    ensures AllClean(LoadLines(t, cfg, argvs).value)
    decreases |argvs|
  {
    hide SetAll, SubsClean, Clean, HasSpaces;
    if argvs == [] {
      NoSubsClean(FirstDefault(t).rights);
    } else {
      var front, argv := argvs[..|argvs| - 1], argvs[|argvs| - 1];
      LoadedClean(t, cfg, front);
      var us := LoadLines(t, cfg, front).value;
      var u0 := BlankUser(t, cfg, argv[1] in us);
      NoSubsClean(u0.rights);
      assert CleanRules(argv);
      CleanRulesCleanUser(t, cfg, u0, argv[2..]);
    }
  }

  // ------------------------------------------------------------------------ round trip

  // A user to be saved, and the categories its printer picks.
  datatype Account = Account(name: string, user: User, cats: seq<nat>)

  ghost predicate AccountOk(t: Table, a: Account) {
    !HasSpaces(a.name) && Valid(t, a.user) && CategoriesOk(t, a.cats) && Fits(t, a.user.rights)
  }

  ghost predicate AccountsOk(t: Table, accounts: seq<Account>) {
    && (forall i :: 0 <= i < |accounts| ==> AccountOk(t, accounts[i]))
    && (forall i, j :: 0 <= i < j < |accounts| ==> accounts[i].name != accounts[j].name)
  }

  ghost function Written(t: Table, a: Account): seq<string>
    requires AccountOk(t, a)
  {
    ["user", a.name] + Texts(UserRules(t, a.user, a.cats))
  }

  ghost function AllWritten(t: Table, accounts: seq<Account>): seq<seq<string>>
    requires AccountsOk(t, accounts)
  {
    seq(|accounts|, i requires 0 <= i < |accounts| => Written(t, accounts[i]))
  }

  // Loading gave the account its user back.  The user "default" exists before, so a reset
  // leaves its mark on it.
  predicate GivenBack(us: Users, a: Account) {
    && a.name in us
    && SameUser(us[a.name], a.user.(profile := Restored(a.user.profile, a.name == "default")))
  }

  lemma WrittenFacts(t: Table, a: Account)
    requires TableOk(t) && AccountOk(t, a)
    ensures UserLine(Written(t, a)) && Written(t, a)[2..] == Texts(UserRules(t, a.user, a.cats))
    ensures CleanRules(Written(t, a)) <==> SubsClean(a.user.rights)
  {
    hide Valid, Fits, SubsClean, TableOk, UserRules, Texts, Clean, HasSpaces;
    TextsClean(t, a.user, a.cats);
    var texts := Texts(UserRules(t, a.user, a.cats));
    var argv := Written(t, a);
    assert forall j :: 2 <= j < |argv| ==> argv[j] == texts[j - 2];
    if CleanRules(argv) {
      forall i | 0 <= i < |texts| ensures Clean(texts[i]) {
        assert texts[i] == argv[i + 2];
      }
    }
  }

  lemma AccountLoads(t: Table, cfg: Config, us: Users, a: Account)
    requires TableOk(t) && AccountOk(t, a) && (a.name in us <==> a.name == "default")
    ensures var r := LoadLine(t, cfg, us, Written(t, a));
            r.Some? && r.value == us[a.name := r.value[a.name]] && GivenBack(r.value, a)
  {
    hide Valid, Fits, TableOk, UserRules, Texts, HasSpaces, Restored, SameUser, BlankUser, ApplyAll, ParseAll;
    var rules := UserRules(t, a.user, a.cats);
    WrittenFacts(t, a);
    TextsReadBack(t, a.user, a.cats);
    RoundTrip(t, cfg, a.user, a.cats, true);
    RoundTrip(t, cfg, a.user, a.cats, a.name == "default");
    TrialSuffices(t, cfg, us, Written(t, a));
  }

  ghost predicate Named(accounts: seq<Account>, name: string) {
    exists i :: 0 <= i < |accounts| && accounts[i].name == name
  }

  ghost predicate AllGivenBack(us: Users, accounts: seq<Account>) {
    && (forall n :: n in us <==> n == "default" || Named(accounts, n))
    && (forall i :: 0 <= i < |accounts| ==> GivenBack(us, accounts[i]))
  }

  lemma {:induction false} CleanAccountsLoad(t: Table, cfg: Config, accounts: seq<Account>)
    requires TableOk(t) && AccountsOk(t, accounts)
    ensures var r := LoadLines(t, cfg, AllWritten(t, accounts)); r.Some? && AllGivenBack(r.value, accounts)
    decreases |accounts|
  {
    hide TableOk, AccountOk, Written, LoadLine, GivenBack;
    if accounts != [] {
      var n := |accounts| - 1;
      var front, a := accounts[..n], accounts[n];
      CleanAccountsLoad(t, cfg, front);
      assert AllWritten(t, accounts)[..n] == AllWritten(t, front);
      var us := LoadLines(t, cfg, AllWritten(t, front)).value;
      assert forall i :: 0 <= i < n ==> front[i].name == accounts[i].name != a.name;
      AccountLoads(t, cfg, us, a);
      OneMoreAccount(us, LoadLine(t, cfg, us, Written(t, a)).value, accounts);
    }
  }

  lemma OneMoreAccount(us: Users, us': Users, accounts: seq<Account>)
    requires accounts != [] && AllGivenBack(us, accounts[..|accounts| - 1])
    requires var a := accounts[|accounts| - 1];
             && !Named(accounts[..|accounts| - 1], a.name)
             && GivenBack(us', a) && us' == us[a.name := us'[a.name]]
    ensures AllGivenBack(us', accounts)
  {
    hide SameUser, Restored;
    var n := |accounts| - 1;
    var front, a := accounts[..n], accounts[n];
    assert forall i :: 0 <= i < n ==> front[i] == accounts[i];
    forall x ensures Named(accounts, x) <==> Named(front, x) || x == a.name {
      if Named(front, x) {
        var i :| 0 <= i < |front| && front[i].name == x;
        assert accounts[i].name == x;
      }
    }
    forall i | 0 <= i < n ensures GivenBack(us', accounts[i]) {
      assert GivenBack(us, front[i]) && front[i].name != a.name;
    }
  }

  /** Loading the saved file gives every user back if and only if no allowed subcommand
      contains a blank or a newline, or ends in a tab or a return. */
  lemma SaveLoadExactly(t: Table, cfg: Config, accounts: seq<Account>)
    requires TableOk(t) && AccountsOk(t, accounts)
    ensures var r := Load(t, cfg, Save(AllWritten(t, accounts)));
            (r.Some? && forall i :: 0 <= i < |accounts| ==> GivenBack(r.value, accounts[i]))
            <==> forall i :: 0 <= i < |accounts| ==> SubsClean(accounts[i].user.rights)
  {
    hide TableOk, AccountOk, Written, LoadLines, SameUser, SubsClean, CleanRules, UserLine, ReadFile, Save;
    var argvs := AllWritten(t, accounts);
    forall i | 0 <= i < |accounts|
      ensures UserLine(argvs[i]) && (CleanRules(argvs[i]) <==> SubsClean(accounts[i].user.rights))
    {
      WrittenFacts(t, accounts[i]);
    }
    ReadSavedExactly(argvs);
    CleanAccountsLoad(t, cfg, accounts);
    ReadsClean(Save(argvs));
    var r := Load(t, cfg, Save(argvs));
    if r.Some? {
      LoadedClean(t, cfg, ReadFile(Save(argvs)));
      forall i | 0 <= i < |accounts| && GivenBack(r.value, accounts[i]) ensures SubsClean(accounts[i].user.rights) {
        SameSubs(r.value[accounts[i].name], accounts[i]);
      }
    }
  }

  lemma SameSubs(u: User, a: Account)
    requires SameUser(u, a.user.(profile := Restored(a.user.profile, a.name == "default"))) && SubsClean(u.rights)
    ensures SubsClean(a.user.rights)
  {
    assert u.rights.subs == a.user.rights.subs;
  }

  /** Every such subcommand can be allowed: the rule is accepted for any command. */
  lemma SpoiltUser(t: Table, cfg: Config, i: nat, sub: string)
    requires TableOk(t) && i < |t.commands| && sub != "" && !(Unbroken(sub) && CleanEnd(sub))
    ensures var r := SetAll(t, cfg, NewUser(t, cfg), ["+" + t.commands[i].name + "|" + sub]);
            r.Ok? && !SubsClean(r.value.rights)
  {
    hide Parse, Lower, HasSpaces, Unbroken, CleanEnd, Find;
    var c := t.commands[i];
    var rule := AllowSub(c.name, sub);
    ParsePrint(rule);
    FindSelf(t.commands, i);
    var ops := ["+" + c.name + "|" + sub];
    assert ParseAll(ops) == [rule];
    var u0 := NewUser(t, cfg);
    OneRule(t, cfg, u0, rule);
    var w := AddSub(u0.rights, c.id, sub);
    assert ApplyToRights(t, u0.rights, rule) == Ok(w);
    assert w.subs[c.id] == [sub] && HasSub(w, sub);
  }
}
