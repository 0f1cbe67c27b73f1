/**
What the rules of an access list mean, each for every user it may be given to.

A category touches exactly its commands, and a later rule wins over an earlier one.  Passwords
behave as a set; a reset forgets whatever was there before.
*/
module AclRules {
  import opened Options
  import opened Acl
  import opened AclDescribe

  // ----------------------------------------------------------------------- categories

  // Commands of modules belong to no category when rules are applied.
  predicate InCategory(c: Command, cat: nat) {
    !c.isModule && cat in c.cats
  }

  ghost predicate Touched(cs: seq<Command>, cat: nat, id: nat) {
    exists k :: 0 <= k < |cs| && cs[k].id == id && InCategory(cs[k], cat)
  }

  lemma TouchedOneMore(cs: seq<Command>, cat: nat, id: nat)
    requires cs != []
    ensures var c := cs[|cs| - 1];
      Touched(cs, cat, id) <==> Touched(cs[..|cs| - 1], cat, id) || (c.id == id && InCategory(c, cat))
  {
    var front := cs[..|cs| - 1];
    if Touched(cs, cat, id) {
      var k :| 0 <= k < |cs| && cs[k].id == id && InCategory(cs[k], cat);
      if k < |front| {
        assert front[k] == cs[k];
      }
    }
    if Touched(front, cat, id) {
      var k :| 0 <= k < |front| && front[k].id == id && InCategory(front[k], cat);
      assert cs[k] == front[k];
    }
  }

  // What a rule for a category leaves behind: new bits for its commands and no list of
  // subcommands for them; everything else as it was.
  ghost predicate Recoloured(cs: seq<Command>, w: Rights, w': Rights, cat: nat, v: bool) {
    && |w'.bits| == |w.bits|
    && (forall id :: 0 <= id < |w.bits| ==> w'.bits[id] == if Touched(cs, cat, id) then v else w.bits[id])
    && (forall id :: id in w'.subs <==> id in w.subs && !Touched(cs, cat, id))
    && (forall id :: id in w'.subs ==> w'.subs[id] == w.subs[id])
    && (w'.all <==> w.all && (v || forall id :: 0 <= id < |w.bits| ==> !Touched(cs, cat, id)))
  }

  lemma {:induction false} SetCategoryExactly(cs: seq<Command>, w: Rights, cat: nat, v: bool)
    ensures Recoloured(cs, w, SetCategory(cs, w, cat, v), cat, v)
    decreases |cs|
  {
    if cs != [] {
      var front := cs[..|cs| - 1];
      SetCategoryExactly(front, w, cat, v);
      RecolourOneMore(cs, w, SetCategory(front, w, cat, v), cat, v);
    }
  }

  lemma RecolourOneMore(cs: seq<Command>, w: Rights, w1: Rights, cat: nat, v: bool)
    requires cs != [] && Recoloured(cs[..|cs| - 1], w, w1, cat, v)
    ensures var c := cs[|cs| - 1];
      Recoloured(cs, w, if InCategory(c, cat) then SetCommand(w1, c.id, v) else w1, cat, v)
  {
    var c, front := cs[|cs| - 1], cs[..|cs| - 1];
    forall id: nat
      ensures Touched(cs, cat, id) <==> Touched(front, cat, id) || (c.id == id && InCategory(c, cat))
    {
      TouchedOneMore(cs, cat, id);
    }
    hide Touched;
    assert InCategory(c, cat) ==> Touched(cs, cat, c.id);
  }

  /** The bit of every command after a rule for a category, and which lists of subcommands go. */
  lemma CategoryBits(cs: seq<Command>, w: Rights, cat: nat, v: bool, k: nat)
    requires k < |cs| && forall i, j :: 0 <= i < j < |cs| ==> cs[i].id != cs[j].id
    ensures var c, w' := cs[k], SetCategory(cs, w, cat, v);
      && |w'.bits| == |w.bits|
      && (c.id < |w.bits| ==> w'.bits[c.id] == if !c.isModule && cat in c.cats then v else w.bits[c.id])
      && (c.id in w'.subs <==> c.id in w.subs && (c.isModule || cat !in c.cats))
      && (c.id in w'.subs ==> w'.subs[c.id] == w.subs[c.id])
  {
    SetCategoryExactly(cs, w, cat, v);
    assert Touched(cs, cat, cs[k].id) <==> InCategory(cs[k], cat);
  }

  // ---------------------------------------------------------------- running a command

  // May the command be run with this first argument?  (AUTH and HELLO always may.)
  predicate MayRun(w: Rights, c: Command, arg: Option<string>) {
    || w.all
    || (c.id < |w.bits| && w.bits[c.id])
    || (arg.Some? && Listed(SubsOf(w, c.id), arg.value))
  }

  method CheckCommandPerm(w: Rights, c: Command, noAuth: bool, arg: Option<string>) returns (ok: bool)
    ensures ok <==> noAuth || MayRun(w, c, arg)
  {
    if !w.all && !noAuth {
      if !(c.id < |w.bits| && w.bits[c.id]) {
        if arg.None? || c.id !in w.subs {
          return false;
        }
        var subid := 0;
        while true
          invariant 0 <= subid <= |w.subs[c.id]|
          invariant forall i :: 0 <= i < subid ==> Lower(w.subs[c.id][i]) != Lower(arg.value)
          decreases |w.subs[c.id]| - subid
        {
          if subid == |w.subs[c.id]| {
            return false;
          }
          if Lower(arg.value) == Lower(w.subs[c.id][subid]) {
            break;
          }
          subid := subid + 1;
        }
      }
    }
    return true;
  }

  // The flag for all commands is never set while a bit is off.
  predicate Cached(w: Rights) {
    w.all ==> forall i :: 0 <= i < |w.bits| ==> w.bits[i]
  }

  lemma RightsCached(t: Table, w: Rights, r: Rule)
    requires Cached(w) && ApplyToRights(t, w, r).Ok?
    ensures Cached(ApplyToRights(t, w, r).value) && |ApplyToRights(t, w, r).value.bits| == |w.bits|
  {
    hide Find, FindCategory, SetCategory, Listed;
    if r.Category? {
      SetCategoryExactly(t.commands, w, FindCategory(t.categories, r.name, 0).value, r.on);
    }
  }

  lemma {:induction false} AlwaysCached(t: Table, cfg: Config, u: User, rs: seq<Rule>)
    requires Cached(u.rights) && ApplyAll(t, cfg, u, rs).Ok?
    ensures Cached(ApplyAll(t, cfg, u, rs).value.rights)
    ensures |ApplyAll(t, cfg, u, rs).value.rights.bits| == |u.rights.bits|
    decreases |rs|
  {
    hide ApplyToRights, ApplyToProfile, Cached;
    if rs != [] {
      AlwaysCached(t, cfg, u, rs[..|rs| - 1]);
      RightsCached(t, ApplyAll(t, cfg, u, rs[..|rs| - 1]).value.rights, rs[|rs| - 1]);
    }
  }

  function Over(said: Option<bool>, before: bool): bool {
    if said.Some? then said.value else before
  }

  // What a rule by itself says about running the command: yes, no, or nothing.
  ghost function Says(t: Table, r: Rule, c: Command, arg: Option<string>): Option<bool> {
    match r
    case AllCommands => Some(true)
    case NoCommands => Some(false)
    case Reset => Some(false)
    case Allow(name) => if c.name == Lower(name) then Some(true) else None
    case Deny(name) => if c.name == Lower(name) then Some(false) else None
    case AllowSub(name, sub) =>
      if c.name == Lower(name) && arg.Some? && Lower(arg.value) == Lower(sub) then Some(true) else None
    case Category(on, name) =>
      if exists i :: 0 <= i < |t.categories| && t.categories[i] == Lower(name) && InCategory(c, i) then Some(on) else None
    case _ => None
  }

  lemma {:induction false} FindExactly(t: Table, n: nat, name: string)
    requires n <= |t.commands|
    ensures Find(t.commands[n..], name).Some? <==> exists i :: n <= i < |t.commands| && t.commands[i].name == Lower(name)
    decreases |t.commands| - n
  {
    hide Lower;
    if n < |t.commands| {
      FindExactly(t, n + 1, name);
      assert t.commands[n..][1..] == t.commands[n + 1..];
    }
  }

  // Rules name commands and categories; a wrong name is an error.
  lemma Found(t: Table, name: string, k: nat)
    requires TableOk(t) && k < |t.commands|
    ensures var f := Find(t.commands, name);
      && (f.Some? <==> exists i :: 0 <= i < |t.commands| && t.commands[i].name == Lower(name))
      && (f.Some? ==> (f.value.id == t.commands[k].id <==> t.commands[k].name == Lower(name)) && f.value.id < t.bits)
  {
    hide Lower, NameOk, CategoryOk;
    FindExactly(t, 0, name);
    assert t.commands[0..] == t.commands;
    var f := Find(t.commands, name);
    if f.Some? {
      var i :| 0 <= i < |t.commands| && t.commands[i] == f.value;
    }
  }

  lemma {:induction false} FindCategoryExactly(names: seq<string>, name: string, n: nat)
    requires n <= |names|
    ensures FindCategory(names, name, n).Some? <==> exists i :: n <= i < |names| && names[i] == Lower(name)
    decreases |names| - n
  {
    hide Lower;
    if n < |names| {
      FindCategoryExactly(names, name, n + 1);
    }
  }

  lemma CategorySays(t: Table, w: Rights, on: bool, name: string, k: nat, arg: Option<string>)
    requires TableOk(t) && |w.bits| == t.bits && Cached(w) && k < |t.commands|
    requires FindCategory(t.categories, name, 0).Some?
    ensures var i := FindCategory(t.categories, name, 0).value;
      MayRun(SetCategory(t.commands, w, i, on), t.commands[k], arg) ==
        Over(Says(t, Category(on, name), t.commands[k], arg), MayRun(w, t.commands[k], arg))
  {
    hide Lower, NameOk, CategoryOk, Listed, SetCategory;
    var i, c := FindCategory(t.categories, name, 0).value, t.commands[k];
    SetCategoryExactly(t.commands, w, i, on);
    assert Touched(t.commands, i, c.id) <==> InCategory(c, i);
    var w' := SetCategory(t.commands, w, i, on);
    assert SubsOf(w', c.id) == if InCategory(c, i) then [] else SubsOf(w, c.id);
    if arg.Some? { NoneListed(arg.value); }
  }

  lemma NoneListed(sub: string)
    ensures !Listed([], sub)
  {
  }

  ghost predicate Knows(t: Table, name: string) {
    exists i :: 0 <= i < |t.commands| && t.commands[i].name == Lower(name)
  }

  ghost predicate KnowsCategory(t: Table, name: string) {
    exists i :: 0 <= i < |t.categories| && t.categories[i] == Lower(name)
  }

  /** A rule about commands is refused exactly when it names what does not exist or an empty
      subcommand. */
  lemma RefusedExactly(t: Table, w: Rights, r: Rule)
    requires TableOk(t)
    ensures var a := ApplyToRights(t, w, r);
      match r
      case Allow(name) => a == Err(NoEntry) <==> !Knows(t, name)
      case Deny(name) => a == Err(NoEntry) <==> !Knows(t, name)
      case AllowSub(name, sub) =>
        (a == Err(NoEntry) <==> !Knows(t, name)) && (a == Err(Invalid) <==> Knows(t, name) && sub == "")
      case Category(_, name) => a == Err(NoEntry) <==> !KnowsCategory(t, name)
      case _ => a.Ok?
    ensures ApplyToRights(t, w, r).Err? ==> ApplyToRights(t, w, r).error in {NoEntry, Invalid}
  {
    hide Lower, TableOk, Find, FindCategory, Listed, SetCategory;
    if r.Allow? || r.Deny? || r.AllowSub? {
      FindExactly(t, 0, r.name);
      assert t.commands[0..] == t.commands;
    }
    if r.Category? {
      FindCategoryExactly(t.categories, r.name, 0);
    }
  }

  lemma SubSays(w: Rights, c: Command, id: nat, sub: string, arg: Option<string>)
    ensures MayRun(AddSub(w, id, sub), c, arg) ==
      (MayRun(w, c, arg) || (c.id == id && arg.Some? && Lower(arg.value) == Lower(sub)))
  {
    hide Lower;
    var s := SubsOf(w, id);
    if arg.Some? {
      assert Listed(s + [sub], arg.value) <==> Listed(s, arg.value) || Lower(arg.value) == Lower(sub) by {
        assert (s + [sub])[|s|] == sub;
        assert forall i :: 0 <= i < |s| ==> (s + [sub])[i] == s[i];
      }
    }
  }

  lemma BitSays(w: Rights, c: Command, id: nat, v: bool, arg: Option<string>)
    requires Cached(w) && id < |w.bits| && c.id < |w.bits|
    ensures MayRun(SetCommand(w, id, v), c, arg) == if c.id == id then v else MayRun(w, c, arg)
  {
    hide Listed;
    if arg.Some? { NoneListed(arg.value); }
  }

  // Rules that name one command.
  lemma BitRuleSays(t: Table, w: Rights, r: Rule, k: nat, arg: Option<string>)
    requires TableOk(t) && |w.bits| == t.bits && Cached(w) && k < |t.commands| && ApplyToRights(t, w, r).Ok?
    requires r.Allow? || r.Deny?
    ensures MayRun(ApplyToRights(t, w, r).value, t.commands[k], arg) ==
      Over(Says(t, r, t.commands[k], arg), MayRun(w, t.commands[k], arg))
  {
    assert t.commands[k].id < t.bits;
    Found(t, r.name, k);
    hide Lower, TableOk, Find, FindCategory, SetCategory, AddSub, SetCommand, Cached, MayRun;
    BitSays(w, t.commands[k], Find(t.commands, r.name).value.id, r.Allow?, arg);
  }

  lemma SubRuleSays(t: Table, w: Rights, r: Rule, k: nat, arg: Option<string>)
    requires TableOk(t) && |w.bits| == t.bits && k < |t.commands| && ApplyToRights(t, w, r).Ok? && r.AllowSub?
    ensures MayRun(ApplyToRights(t, w, r).value, t.commands[k], arg) ==
      Over(Says(t, r, t.commands[k], arg), MayRun(w, t.commands[k], arg))
  {
    assert t.commands[k].id < t.bits;
    Found(t, r.name, k);
    hide Lower, TableOk, Find, FindCategory, Listed, SetCategory, AddSub, SetCommand;
    SubSays(w, t.commands[k], Find(t.commands, r.name).value.id, r.sub, arg);
  }

  /** After a rule, a command may be run as the rule says, and as before where it says nothing. */
  lemma RuleDecides(t: Table, w: Rights, r: Rule, k: nat, arg: Option<string>)
    requires TableOk(t) && |w.bits| == t.bits && Cached(w) && k < |t.commands| && ApplyToRights(t, w, r).Ok?
    ensures MayRun(ApplyToRights(t, w, r).value, t.commands[k], arg) ==
      Over(Says(t, r, t.commands[k], arg), MayRun(w, t.commands[k], arg))
  {
    hide Lower, TableOk, Find, FindCategory, SetCategory, AddSub, SetCommand, Cached, MayRun;
    if r.Allow? || r.Deny? {
      BitRuleSays(t, w, r, k, arg);
    } else if r.AllowSub? {
      SubRuleSays(t, w, r, k, arg);
    } else if r.Category? {
      CategorySays(t, w, r.on, r.name, k, arg);
    } else {
      AllSay(|w.bits|, t.commands[k], arg);
    }
  }

  lemma AllSay(n: nat, c: Command, arg: Option<string>)
    ensures MayRun(Rights(AllBits(n, true), map[], true), c, arg) && !MayRun(NoRights(n), c, arg)
  {
    if arg.Some? { NoneListed(arg.value); }
  }

  // What the last rule that has something to say about the command says.
  ghost function LastSaid(t: Table, rs: seq<Rule>, c: Command, arg: Option<string>): Option<bool> {
    if rs == [] then None
    else
      var said := Says(t, rs[|rs| - 1], c, arg);
      if said.Some? then said else LastSaid(t, rs[..|rs| - 1], c, arg)
  }

  /** Over any list of rules the last one that concerns a command decides whether it may be run. */
  lemma {:induction false} LastRuleWins(t: Table, cfg: Config, u: User, rs: seq<Rule>, k: nat, arg: Option<string>)
    requires TableOk(t) && |u.rights.bits| == t.bits && Cached(u.rights) && k < |t.commands|
    requires ApplyAll(t, cfg, u, rs).Ok?
    ensures MayRun(ApplyAll(t, cfg, u, rs).value.rights, t.commands[k], arg) ==
      Over(LastSaid(t, rs, t.commands[k], arg), MayRun(u.rights, t.commands[k], arg))
    decreases |rs|
  {
    hide ApplyToRights, ApplyToProfile, Cached, TableOk, MayRun, Says;
    if rs != [] {
      var front := rs[..|rs| - 1];
      LastRuleWins(t, cfg, u, front, k, arg);
      AlwaysCached(t, cfg, u, front);
      RuleDecides(t, ApplyAll(t, cfg, u, front).value.rights, rs[|rs| - 1], k, arg);
    }
  }

  lemma SameBitsSameRuns(w: Rights, v: Rights, c: Command, arg: Option<string>)
    requires Cached(w) && Cached(v) && w.bits == v.bits && w.subs == v.subs && c.id < |w.bits|
    ensures MayRun(w, c, arg) == MayRun(v, c, arg)
  {
    hide Listed;
  }

  /** A user rebuilt from its printed rules may run exactly what it could run before, although
      the printer does not record the flag for all commands. */
  lemma PermissionsSurvive(t: Table, cfg: Config, ops: seq<string>, cats: seq<nat>, u: User, k: nat, arg: Option<string>)
    requires TableOk(t) && ConfigOk(cfg) && CategoriesOk(t, cats) && k < |t.commands|
    requires SetAll(t, cfg, NewUser(t, cfg), ops) == Ok(u)
    ensures Fits(t, u.rights)
    ensures var r := SetAll(t, cfg, NewUser(t, cfg), Texts(UserRules(t, u, cats)));
      r.Ok? && MayRun(r.value.rights, t.commands[k], arg) == MayRun(u.rights, t.commands[k], arg)
  {
    PrintedRulesRestore(t, cfg, ops, cats, u);
    hide UserRules, ApplyAll, MayRun, Cached, Fits;
    var u0 := NewUser(t, cfg);
    assert Cached(u0.rights) by { NewCached(t); }
    AlwaysCached(t, cfg, u0, ParseAll(ops));
    var printed := Texts(UserRules(t, u, cats));
    AlwaysCached(t, cfg, u0, ParseAll(printed));
    SameBitsSameRuns(SetAll(t, cfg, u0, printed).value.rights, u.rights, t.commands[k], arg);
  }

  lemma NewCached(t: Table)
    ensures Cached(NoRights(t.bits))
  {
  }

  // ------------------------------------------------------------------------ logging in

  predicate MayLogin(cfg: Config, p: Profile, clear: string) {
    !p.disabled && (p.nopass || cfg.hash(clear) in p.passwords)
  }

  method CheckCredentials(cfg: Config, p: Profile, clear: string) returns (ok: bool)
    ensures ok <==> MayLogin(cfg, p, clear)
  {
    if p.disabled {
      return false;
    }
    if p.nopass {
      return true;
    }
    var hashed := cfg.hash(clear);
    for i := 0 to |p.passwords|
      invariant hashed !in p.passwords[..i]
    {
      if hashed == p.passwords[i] {
        return true;
      }
    }
    return false;
  }

  lemma {:induction false} Removed(s: seq<string>, x: string, y: string)
    requires Distinct(s)
    ensures y in Remove(s, x) <==> y in s && y != x
  {
    if s != [] {
      assert s[0] !in s[1..];
      assert y in s <==> y == s[0] || y in s[1..];
      if s[0] != x {
        assert forall i :: 0 <= i < |s[1..]| ==> s[1..][i] == s[i + 1];
        Removed(s[1..], x, y);
      }
    }
  }

  // Who may log in after a rule, by its meaning.
  predicate LoginAfter(cfg: Config, p: Profile, r: Rule, clear: string) {
    var h := cfg.hash(clear);
    match r
    case On => p.nopass || h in p.passwords
    case Off => false
    case Reset => false
    case ResetPass => false
    case NoPass => !p.disabled
    case AddPassword(c) => !p.disabled && (h in p.passwords || h == cfg.hash(c))
    case AddHash(g) => !p.disabled && (h in p.passwords || h == g)
    case DelPassword(c) => MayLogin(cfg, p, clear) && h != cfg.hash(c)
    case DelHash(g) => MayLogin(cfg, p, clear) && h != g
    case _ => MayLogin(cfg, p, clear)
  }

  /** What each rule does to the passwords that open the account. */
  lemma LoginExactly(cfg: Config, p: Profile, r: Rule, clear: string)
    requires ProfileOk(p) && ApplyToProfile(cfg, p, r).Ok?
    ensures MayLogin(cfg, ApplyToProfile(cfg, p, r).value, clear) == LoginAfter(cfg, p, r, clear)
  {
    hide HashOk, HasSpaces, PatternsOk, Remove;
    if r.DelPassword? { Removed(p.passwords, cfg.hash(r.clear), cfg.hash(clear)); }
    if r.DelHash? { Removed(p.passwords, r.hash, cfg.hash(clear)); }
  }

  // What a hash looks like, and what counts as a blank, letter by letter.
  lemma LettersExactly(h: string)
    ensures HashOk(h) <==> |h| == 64 && forall c :: c in h ==> c in "0123456789abcdef"
    ensures HasSpaces(h) <==> exists c :: c in h && c in " \t\n\U{B}\U{C}\r\0"
  {
    forall c ensures HexDigit(c) <==> c in "0123456789abcdef" { HexLetters(c); }
    forall c ensures Space(c) <==> c in " \t\n\U{B}\U{C}\r\0" { BlankLetters(c); }
    hide HexDigit, Space;
    assert forall i :: 0 <= i < |h| ==> h[i] in h;
  }

  lemma HexLetters(c: char)
    ensures HexDigit(c) <==> c in "0123456789abcdef"
  {
    var digits := "0123456789abcdef";
    if '0' <= c <= '9' { assert digits[(c - '0') as nat] == c; }
    if 'a' <= c <= 'f' { assert digits[10 + (c - 'a') as nat] == c; }
  }

  lemma BlankLetters(c: char)
    ensures Space(c) <==> c in " \t\n\U{B}\U{C}\r\0"
  {
  }

  /** A rule about passwords is refused exactly for a malformed hash, or when there is nothing to
      take away. */
  lemma PasswordRefused(cfg: Config, p: Profile, h: string)
    ensures var a := ApplyToProfile(cfg, p, AddHash(h)); (a == Err(BadHash) <==> !HashOk(h)) && (a.Ok? <==> HashOk(h))
    ensures var d := ApplyToProfile(cfg, p, DelHash(h));
      && (d == Err(BadHash) <==> !HashOk(h))
      && (d == Err(NoPassword) <==> HashOk(h) && h !in p.passwords)
      && (d.Ok? <==> HashOk(h) && h in p.passwords)
    ensures var d := ApplyToProfile(cfg, p, DelPassword(h));
      && (d == Err(NoPassword) <==> cfg.hash(h) !in p.passwords)
      && (d.Ok? <==> cfg.hash(h) in p.passwords)
  {
    hide HashOk;
  }

  /** A password that was not there can be added and taken away again, which leaves the
      account as it was but for the flag that no password is needed. */
  lemma AddThenDelete(t: Table, cfg: Config, u: User, clear: string)
    requires cfg.hash(clear) !in u.profile.passwords
    ensures ApplyAll(t, cfg, u, [AddPassword(clear), DelPassword(clear)]) ==
      Ok(u.(profile := u.profile.(nopass := false)))
  {
    hide ApplyAll;
    var p := u.profile.(passwords := u.profile.passwords + [cfg.hash(clear)], nopass := false);
    TwoRules(t, cfg, u, AddPassword(clear), DelPassword(clear), u.(profile := p));
    RemoveLast(u.profile.passwords, cfg.hash(clear));
  }

  lemma {:induction false} RemoveLast(s: seq<string>, x: string)
    requires x !in s
    ensures Remove(s + [x], x) == s
  {
    if s != [] {
      RemoveLast(s[1..], x);
      assert (s + [x])[1..] == s[1..] + [x];
    }
  }

  // ------------------------------------------------------------------ keys and channels

  /** Patterns are refused while everything is open. */
  lemma PatternsExactly(cfg: Config, p: Profile, pat: string)
    ensures var k := ApplyToProfile(cfg, p, Key(pat));
      && (k.Ok? <==> !p.allkeys && !HasSpaces(pat))
      && (k.Ok? ==> k.value.(patterns := p.patterns) == p)
      && (k.Ok? ==> forall x :: x in k.value.patterns <==> x in p.patterns || x == pat)
    ensures var c := ApplyToProfile(cfg, p, Channel(pat));
      && (c.Ok? <==> !p.allchannels && !HasSpaces(pat))
      && (c.Ok? ==> c.value.(channels := p.channels) == p)
      && (c.Ok? ==> forall x :: x in c.value.channels <==> x in p.channels || x == pat)
  {
    hide HasSpaces;
  }

  /** Clearing makes room for patterns, and forgets the others. */
  lemma ClearedThenAdded(t: Table, cfg: Config, u: User, pat: string)
    requires !HasSpaces(pat)
    ensures ApplyAll(t, cfg, u, [ResetKeys, Key(pat)]) ==
      Ok(u.(profile := u.profile.(allkeys := false, patterns := [pat])))
    ensures ApplyAll(t, cfg, u, [ResetChannels, Channel(pat)]) ==
      Ok(u.(profile := u.profile.(allchannels := false, channels := [pat])))
  {
    hide HasSpaces, ApplyAll;
    var keyless := u.(profile := u.profile.(allkeys := false, patterns := []));
    var muted := u.(profile := u.profile.(allchannels := false, channels := []));
    assert Add([], pat) == [pat];
    assert Apply(t, cfg, u, ResetKeys) == Ok(keyless) && Apply(t, cfg, u, ResetChannels) == Ok(muted);
    TwoRules(t, cfg, u, ResetKeys, Key(pat), keyless);
    TwoRules(t, cfg, u, ResetChannels, Channel(pat), muted);
  }

  // ------------------------------------------------------------------------- starting over

  lemma ResetIsBlank(t: Table, cfg: Config, u: User)
    requires |u.rights.bits| == t.bits
    ensures ApplyAll(t, cfg, u, [Reset]) == Ok(BlankUser(t, cfg, true))
  {
    OneRule(t, cfg, u, Reset);
  }

  /** A reset forgets everything: whatever the user was, a reset and the printed rules of
      another make it that other. */
  lemma ResetForgets(t: Table, cfg: Config, u: User, v: User, cats: seq<nat>)
    requires TableOk(t) && Valid(t, v) && CategoriesOk(t, cats) && |u.rights.bits| == t.bits
    ensures Fits(t, v.rights)
    ensures var r := ApplyAll(t, cfg, u, [Reset] + UserRules(t, v, cats));
      r.Ok? && SameUser(r.value, v.(profile := Restored(v.profile, true)))
  {
    ResetIsBlank(t, cfg, u);
    hide *;
    RoundTrip(t, cfg, v, cats, true);
    ApplyConcat(t, cfg, u, [Reset], UserRules(t, v, cats), BlankUser(t, cfg, true));
  }

  // ------------------------------------------------------------------- nothing needless

  // The command needs this rule when the rules so far leave the bits as given.
  ghost predicate Needed(c: Command, w: Rights, bits: seq<bool>, r: Rule)
    requires c.id < |w.bits| == |bits|
  {
    if r.AllowSub? then r.name == c.name && !w.bits[c.id] && r.sub in SubsOf(w, c.id)
    else w.bits[c.id] != bits[c.id] && r == if w.bits[c.id] then Allow(c.name) else Deny(c.name)
  }

  /** After the categories the printer mentions only commands whose bit is then wrong, each with
      the rule that rights it, and subcommands that are allowed. */
  lemma {:induction false} NothingNeedless(t: Table, w: Rights, bits: seq<bool>, i: nat, r: Rule)
    requires TableOk(t) && i <= |t.commands| && |bits| == |w.bits| && Fits(t, w) && r in Fixes(t, w, bits, i)
    ensures exists k :: i <= k < |t.commands| && Needed(t.commands[k], w, bits, r)
    decreases |t.commands| - i
  {
    hide Lower, NameOk, CategoryOk, Needed, CommandRules;
    var c := t.commands[i];
    if r in CommandRules(c, w, bits[c.id]) {
      OneCommandNeeds(c, w, bits, r);
    } else {
      var bits1 := bits[c.id := w.bits[c.id]];
      NothingNeedless(t, w, bits1, i + 1, r);
      var k :| i + 1 <= k < |t.commands| && Needed(t.commands[k], w, bits1, r);
      assert t.commands[k].id != c.id;
      OtherBits(t.commands[k], w, bits, bits1, r);
    }
  }

  lemma OneCommandNeeds(c: Command, w: Rights, bits: seq<bool>, r: Rule)
    requires c.id < |w.bits| == |bits| && r in CommandRules(c, w, bits[c.id])
    ensures Needed(c, w, bits, r)
  {
  }

  lemma OtherBits(c: Command, w: Rights, bits: seq<bool>, bits1: seq<bool>, r: Rule)
    requires c.id < |w.bits| == |bits| == |bits1| && bits1[c.id] == bits[c.id] && Needed(c, w, bits1, r)
    ensures Needed(c, w, bits, r)
  {
  }

  // --------------------------------------------------------------------- words for rules

  /** Words mean the same in any case. */
  lemma CaseIgnored(op: string)
    requires Keyword(Lower(op)).Some?
    ensures Parse(op) == Parse(Lower(op)) == Keyword(Lower(op)).value
  {
    hide Keyword, ParsePrefixed;
    assert Lower(Lower(op)) == Lower(op);
    assert op != "" by { NoKeyword(); }
  }

  lemma NoKeyword()
    ensures Keyword("").None?
  {
  }

  /** Four rules have a second spelling. */
  lemma Spellings()
    ensures Parse("allkeys") == Parse("~*") && Parse("allchannels") == Parse("&*")
    ensures Parse("allcommands") == Parse("+@all") && Parse("nocommands") == Parse("-@all")
  {
    KeySpellings();
    CommandSpellings();
    hide *;
    Spelt("allkeys");
    Spelt("~*");
    Spelt("allchannels");
    Spelt("&*");
    Spelt("allcommands");
    Spelt("+@all");
    Spelt("nocommands");
    Spelt("-@all");
  }

  lemma Spelt(word: string)
    requires Lower(word) == word && Keyword(word).Some?
    ensures Parse(word) == Keyword(word).value
  {
    CaseIgnored(word);
  }

  lemma KeySpellings()
    ensures Lower("allkeys") == "allkeys" && Lower("~*") == "~*"
    ensures Lower("allchannels") == "allchannels" && Lower("&*") == "&*"
    ensures Keyword("allkeys") == Keyword("~*") == Some(AllKeys)
    ensures Keyword("allchannels") == Keyword("&*") == Some(AllChannels)
  {
  }

  lemma CommandSpellings()
    ensures Lower("allcommands") == "allcommands" && Lower("+@all") == "+@all"
    ensures Lower("nocommands") == "nocommands" && Lower("-@all") == "-@all"
    ensures Keyword("allcommands") == Keyword("+@all") == Some(AllCommands)
    ensures Keyword("nocommands") == Keyword("-@all") == Some(NoCommands)
  {
  }
}
