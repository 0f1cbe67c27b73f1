/**
Printing a user as rules, and why replaying the rules restores the user.
*/
module AclDescribe {
  import opened Options
  import opened Acl

  // ------------------------------------------------------------------ the rules printed

  function FlagRules(p: Profile): seq<Rule> {
    (if p.enabled then [On] else []) +
    (if p.disabled then [Off] else []) +
    (if p.nopass then [NoPass] else []) +
    (if p.sanitizeSkip then [SkipSanitize] else []) +
    (if p.sanitize then [Sanitize] else [])
  }

  function PasswordRules(s: seq<string>): seq<Rule> {
    seq(|s|, i requires 0 <= i < |s| => AddHash(s[i]))
  }

  function Keys(s: seq<string>): seq<Rule> {
    seq(|s|, i requires 0 <= i < |s| => Key(s[i]))
  }

  function Channels(s: seq<string>): seq<Rule> {
    seq(|s|, i requires 0 <= i < |s| => Channel(s[i]))
  }

  function KeyRules(p: Profile): seq<Rule> {
    if p.allkeys then [AllKeys]
    else Keys(p.patterns)
  }

  function ChannelRules(p: Profile): seq<Rule> {
    if p.allchannels then [AllChannels]
    else [ResetChannels] + Channels(p.channels)
  }

  function ProfileRules(p: Profile): seq<Rule> {
    FlagRules(p) + PasswordRules(p.passwords) + KeyRules(p) + ChannelRules(p)
  }

  // May the user run commands that do not exist yet?
  function Future(w: Rights): bool
    requires |w.bits| > 0
  {
    w.bits[|w.bits| - 1]
  }

  function StartRule(future: bool): Rule {
    if future then AllCommands else NoCommands
  }

  function Start(n: nat, future: bool): Rights {
    Rights(AllBits(n, future), map[], future)
  }

  predicate CategoriesOk(t: Table, cats: seq<nat>) {
    forall i :: 0 <= i < |cats| ==> cats[i] < |t.categories|
  }

  function CategoryRules(t: Table, cats: seq<nat>, on: bool): seq<Rule>
    requires CategoriesOk(t, cats)
  {
    seq(|cats|, i requires 0 <= i < |cats| => Category(on, t.categories[cats[i]]))
  }

  // The rights after the categories, in order.
  function Categorised(t: Table, w: Rights, cats: seq<nat>, on: bool): Rights {
    if cats == [] then w
    else SetCategory(t.commands, Categorised(t, w, cats[..|cats| - 1], on), cats[|cats| - 1], on)
  }

  function SubRules(name: string, subs: seq<string>): seq<Rule> {
    seq(|subs|, i requires 0 <= i < |subs| => AllowSub(name, subs[i]))
  }

  function Fix(c: Command, w: Rights, have: bool): seq<Rule>
    requires c.id < |w.bits|
  {
    if w.bits[c.id] == have then [] else if w.bits[c.id] then [Allow(c.name)] else [Deny(c.name)]
  }

  // What one command needs when the rules so far give it the bit `have`.
  function CommandRules(c: Command, w: Rights, have: bool): seq<Rule>
    requires c.id < |w.bits|
  {
    Fix(c, w, have) +
    (if w.bits[c.id] then [] else SubRules(c.name, SubsOf(w, c.id)))
  }

  // The bitmap has room for every command.
  ghost predicate Fits(t: Table, w: Rights) {
    0 < |w.bits| == t.bits && forall k :: 0 <= k < |t.commands| ==> t.commands[k].id < |w.bits|
  }

  // The commands one by one, from number i on.
  ghost function Fixes(t: Table, w: Rights, bits: seq<bool>, i: nat): seq<Rule>
    requires i <= |t.commands| && |bits| == |w.bits| && Fits(t, w)
    decreases |t.commands| - i
  {
    if i == |t.commands| then []
    else
      var c := t.commands[i];
      CommandRules(c, w, bits[c.id]) + Fixes(t, w, bits[c.id := w.bits[c.id]], i + 1)
  }

  // The rules for the rights `w`, when the categories `cats` are used to shorten them.
  ghost function RightsRules(t: Table, w: Rights, cats: seq<nat>): seq<Rule>
    requires Fits(t, w) && CategoriesOk(t, cats)
  {
    var on := !Future(w);
    var fake := Categorised(t, Start(|w.bits|, Future(w)), cats, on);
    CategorisedLength(t, Start(|w.bits|, Future(w)), cats, on);
    [StartRule(Future(w))] + CategoryRules(t, cats, on) + Fixes(t, w, fake.bits, 0)
  }

  lemma {:induction false} SetCategoryLength(cs: seq<Command>, w: Rights, cat: nat, v: bool)
    ensures |SetCategory(cs, w, cat, v).bits| == |w.bits|
  {
    if cs != [] { SetCategoryLength(cs[..|cs| - 1], w, cat, v); }
  }

  lemma {:induction false} CategorisedLength(t: Table, w: Rights, cats: seq<nat>, on: bool)
    ensures |Categorised(t, w, cats, on).bits| == |w.bits|
  {
    if cats != [] {
      CategorisedLength(t, w, cats[..|cats| - 1], on);
      SetCategoryLength(t.commands, Categorised(t, w, cats[..|cats| - 1], on), cats[|cats| - 1], on);
    }
  }

  // --------------------------------------------------------------- replaying the rights

  function ReplayRights(t: Table, w: Rights, rs: seq<Rule>): Outcome<Rights> {
    if rs == [] then Ok(w)
    else
      match ReplayRights(t, w, rs[..|rs| - 1])
      case Ok(w1) => ApplyToRights(t, w1, rs[|rs| - 1])
      case Err(e) => Err(e)
  }

  lemma {:induction false} ReplayConcat(t: Table, w: Rights, a: seq<Rule>, b: seq<Rule>, w1: Rights)
    requires ReplayRights(t, w, a) == Ok(w1)
    ensures ReplayRights(t, w, a + b) == ReplayRights(t, w1, b)
    decreases |b|
  {
    hide ApplyToRights;
    if b == [] {
      assert a + b == a;
    } else {
      assert (a + b)[..|a + b| - 1] == a + b[..|b| - 1];
      ReplayConcat(t, w, a, b[..|b| - 1], w1);
    }
  }

  lemma ReplayOne(t: Table, w: Rights, r: Rule)
    ensures ReplayRights(t, w, [r]) == ApplyToRights(t, w, r)
  {
    hide ApplyToRights;
    assert [r][..0] == [];
    assert ReplayRights(t, w, [r][..0]) == Ok(w);
  }

  lemma {:induction false} FindSelf(cs: seq<Command>, i: nat)
    requires i < |cs| && Lower(cs[i].name) == cs[i].name
    requires forall j, k :: 0 <= j < k < |cs| ==> cs[j].name != cs[k].name
    ensures Find(cs, cs[i].name) == Some(cs[i])
  {
    if i > 0 {
      assert cs[1..][i - 1] == cs[i];
      FindSelf(cs[1..], i - 1);
    }
  }

  lemma {:induction false} FindCategorySelf(t: Table, i: nat, from: nat)
    requires TableOk(t) && from <= i < |t.categories|
    ensures FindCategory(t.categories, t.categories[i], from) == Some(i)
    decreases i - from
  {
    if from < i { FindCategorySelf(t, i, from + 1); }
  }

  lemma {:induction false} CategoriesReplay(t: Table, w: Rights, cats: seq<nat>, on: bool)
    requires TableOk(t) && CategoriesOk(t, cats)
    ensures ReplayRights(t, w, CategoryRules(t, cats, on)) == Ok(Categorised(t, w, cats, on))
    decreases |cats|
  {
    hide TableOk, SetCategory;
    if cats != [] {
      var rs := CategoryRules(t, cats, on);
      var shorter := cats[..|cats| - 1];
      CategoriesReplay(t, w, shorter, on);
      assert rs[..|rs| - 1] == CategoryRules(t, shorter, on);
      FindCategorySelf(t, cats[|cats| - 1], 0);
    }
  }

  // Categories touch commands only, and a list without subcommands stays so.
  lemma {:induction false} SetCategoryFrame(t: Table, n: nat, w: Rights, cat: nat, v: bool)
    requires n <= |t.commands| && w.subs == map[]
    ensures SetCategory(t.commands[..n], w, cat, v).subs == map[]
    ensures |SetCategory(t.commands[..n], w, cat, v).bits| == |w.bits|
    ensures forall j :: 0 <= j < |w.bits| && !IsId(t, j) ==> SetCategory(t.commands[..n], w, cat, v).bits[j] == w.bits[j]
  {
    if n > 0 {
      assert t.commands[..n][..n - 1] == t.commands[..n - 1];
      SetCategoryFrame(t, n - 1, w, cat, v);
      assert IsId(t, t.commands[n - 1].id);
    }
  }

  lemma {:induction false} CategorisedFrame(t: Table, w: Rights, cats: seq<nat>, on: bool)
    requires w.subs == map[]
    ensures Categorised(t, w, cats, on).subs == map[]
    ensures |Categorised(t, w, cats, on).bits| == |w.bits|
    ensures forall j :: 0 <= j < |w.bits| && !IsId(t, j) ==> Categorised(t, w, cats, on).bits[j] == w.bits[j]
    decreases |cats|
  {
    hide SetCategory, IsId;
    if cats != [] {
      CategorisedFrame(t, w, cats[..|cats| - 1], on);
      assert t.commands[..|t.commands|] == t.commands;
      SetCategoryFrame(t, |t.commands|, Categorised(t, w, cats[..|cats| - 1], on), cats[|cats| - 1], on);
    }
  }

  // One more subcommand.
  lemma SubReplay(t: Table, v: Rights, i: nat, sub: string)
    requires TableOk(t) && i < |t.commands| && sub != ""
    requires t.commands[i].id < |v.bits| && !v.bits[t.commands[i].id]
    requires !Listed(SubsOf(v, t.commands[i].id), sub)
    ensures var c := t.commands[i];
      ApplyToRights(t, v, AllowSub(c.name, sub)) == Ok(v.(subs := v.subs[c.id := SubsOf(v, c.id) + [sub]]))
  {
    FindSelf(t.commands, i);
    hide Find, Listed;
  }

  lemma {:induction false} SubsReplay(t: Table, w: Rights, i: nat, subs: seq<string>)
    requires TableOk(t) && i < |t.commands|
    requires t.commands[i].id < |w.bits| && !w.bits[t.commands[i].id] && t.commands[i].id !in w.subs
    requires SubListOk(subs)
    ensures ReplayRights(t, w, SubRules(t.commands[i].name, subs)) == Ok(w.(subs := w.subs[t.commands[i].id := subs]))
    decreases |subs|
  {
    hide TableOk, ApplyToRights, Lower, Listed;
    var c := t.commands[i];
    var rs := SubRules(c.name, subs);
    var shorter, last := subs[..|subs| - 1], subs[|subs| - 1];
    assert rs[..|rs| - 1] == SubRules(c.name, shorter);
    assert subs == shorter + [last];
    NotListed(subs);
    var v := if shorter == [] then w else w.(subs := w.subs[c.id := shorter]);
    if shorter != [] {
      SubsReplay(t, w, i, shorter);
    }
    assert ReplayRights(t, w, SubRules(c.name, shorter)) == Ok(v);
    assert SubsOf(v, c.id) == shorter;
    SubReplay(t, v, i, last);
    assert v.subs[c.id := subs] == w.subs[c.id := subs];
  }

  lemma NotListed(subs: seq<string>)
    requires SubListOk(subs)
    ensures !Listed(subs[..|subs| - 1], subs[|subs| - 1])
  {
  }

  // The subcommands of the first i commands.
  ghost function Upto(t: Table, w: Rights, i: nat): map<nat, seq<string>>
    requires i <= |t.commands|
  {
    map id | id in w.subs && AmongFirst(t, i, id) :: w.subs[id]
  }

  ghost predicate AmongFirst(t: Table, i: nat, id: nat)
    requires i <= |t.commands|
  {
    exists k :: 0 <= k < i && t.commands[k].id == id
  }

  lemma UptoNext(t: Table, w: Rights, i: nat)
    requires TableOk(t) && i < |t.commands|
    ensures t.commands[i].id !in Upto(t, w, i)
    ensures var id := t.commands[i].id;
      Upto(t, w, i + 1) == if id in w.subs then Upto(t, w, i)[id := w.subs[id]] else Upto(t, w, i)
  {
    var id := t.commands[i].id;
    assert AmongFirst(t, i + 1, id);
    forall x ensures AmongFirst(t, i + 1, x) == (AmongFirst(t, i, x) || x == id) {
      if AmongFirst(t, i, x) {
        var k :| 0 <= k < i && t.commands[k].id == x;
      }
    }
  }

  lemma FixReplay(t: Table, w: Rights, v: Rights, i: nat)
    requires TableOk(t) && i < |t.commands| && |v.bits| == |w.bits| == t.bits && t.commands[i].id !in v.subs
    ensures var c := t.commands[i];
      var r := ReplayRights(t, v, Fix(c, w, v.bits[c.id]));
      r.Ok? && r.value.bits == v.bits[c.id := w.bits[c.id]] && r.value.subs == v.subs
  {
    var c := t.commands[i];
    assert c.id < t.bits;
    FindSelf(t.commands, i);
    hide Find, Lower, TableOk, ReplayRights;
    var rs := Fix(c, w, v.bits[c.id]);
    if rs == [] {
      ReplayNone(t, v);
    } else {
      ReplayOne(t, v, rs[0]);
      assert rs == [rs[0]];
      assert v.subs - {c.id} == v.subs;
    }
  }

  // One command: afterwards the replay agrees with `w` on this command too.
  lemma CommandReplay(t: Table, w: Rights, v: Rights, i: nat)
    requires TableOk(t) && RightsOk(t, w) && i < |t.commands|
    requires |v.bits| == |w.bits| && v.subs == Upto(t, w, i)
    ensures var c := t.commands[i];
      var r := ReplayRights(t, v, CommandRules(c, w, v.bits[c.id]));
      r.Ok? && r.value.bits == v.bits[c.id := w.bits[c.id]] && r.value.subs == Upto(t, w, i + 1)
  {
    var c := t.commands[i];
    assert c.id < |w.bits|;
    hide Upto, SubListOk, IsId, TableOk, ReplayRights, Fix;
    UptoNext(t, w, i);
    FixReplay(t, w, v, i);
    var fix := Fix(c, w, v.bits[c.id]);
    var v1 := ReplayRights(t, v, fix).value;
    var subs := if w.bits[c.id] then [] else SubRules(c.name, SubsOf(w, c.id));
    ReplayConcat(t, v, fix, subs, v1);
    if c.id in w.subs {
      SubsReplay(t, v1, i, w.subs[c.id]);
    } else {
      assert subs == [];
      ReplayNone(t, v1);
    }
  }

  lemma ReplayNone(t: Table, w: Rights)
    ensures ReplayRights(t, w, []) == Ok(w)
  {
  }

  lemma {:induction false} FixesReplay(t: Table, w: Rights, v: Rights, i: nat)
    requires TableOk(t) && RightsOk(t, w) && i <= |t.commands|
    requires |v.bits| == |w.bits| && v.subs == Upto(t, w, i)
    requires forall j :: 0 <= j < |w.bits| && v.bits[j] != w.bits[j] ==> IsId(t, j) && !AmongFirst(t, i, j)
    ensures var r := ReplayRights(t, v, Fixes(t, w, v.bits, i));
      r.Ok? && r.value.bits == w.bits && r.value.subs == w.subs
    decreases |t.commands| - i
  {
    hide CommandRules, SubListOk, RightsOk, ReplayRights;
    if i == |t.commands| {
      FixesDone(t, w, v);
      ReplayNone(t, v);
    } else {
      var c := t.commands[i];
      ValidFits(t, w);
      CommandReplay(t, w, v, i);
      var rs := CommandRules(c, w, v.bits[c.id]);
      var v1 := ReplayRights(t, v, rs).value;
      forall j | 0 <= j < |w.bits| && v1.bits[j] != w.bits[j]
        ensures IsId(t, j) && !AmongFirst(t, i + 1, j)
      {
        assert j != c.id && v.bits[j] != w.bits[j];
      }
      FixesReplay(t, w, v1, i + 1);
      ReplayConcat(t, v, rs, Fixes(t, w, v1.bits, i + 1), v1);
    }
  }

  lemma ValidFits(t: Table, w: Rights)
    requires TableOk(t) && RightsOk(t, w)
    ensures Fits(t, w)
  {
  }

  lemma FixesDone(t: Table, w: Rights, v: Rights)
    requires TableOk(t) && RightsOk(t, w)
    requires |v.bits| == |w.bits| && v.subs == Upto(t, w, |t.commands|)
    requires forall j :: 0 <= j < |w.bits| && v.bits[j] != w.bits[j] ==> IsId(t, j) && !AmongFirst(t, |t.commands|, j)
    ensures v.bits == w.bits && v.subs == w.subs
  {
    hide SubListOk, Lower;
    forall j ensures AmongFirst(t, |t.commands|, j) == IsId(t, j) {
    }
  }

  /** Whatever categories the printer picks, its rules give back the rights, to any user. */
  lemma RightsRoundTrip(t: Table, w: Rights, cats: seq<nat>, v: Rights)
    requires TableOk(t) && RightsOk(t, w) && CategoriesOk(t, cats) && |v.bits| == t.bits
    ensures Fits(t, w)
    ensures var r := ReplayRights(t, v, RightsRules(t, w, cats));
      r.Ok? && r.value.bits == w.bits && r.value.subs == w.subs
  {
    ValidFits(t, w);
    hide TableOk, RightsOk, Fixes, Categorised, CategoryRules, ReplayRights, IsId, SubListOk;
    var on := !Future(w);
    var first := Start(|w.bits|, Future(w));
    var fake := Categorised(t, first, cats, on);
    StartReplay(t, w, v);
    CategoriesReplay(t, first, cats, on);
    CategorisedFrame(t, first, cats, on);
    ReplayConcat(t, v, [StartRule(Future(w))], CategoryRules(t, cats, on), first);
    BeforeFixes(t, w, fake);
    FixesReplay(t, w, fake, 0);
    ReplayConcat(t, v, [StartRule(Future(w))] + CategoryRules(t, cats, on), Fixes(t, w, fake.bits, 0), fake);
  }

  lemma StartReplay(t: Table, w: Rights, v: Rights)
    requires RightsOk(t, w) && |v.bits| == t.bits
    ensures ReplayRights(t, v, [StartRule(Future(w))]) == Ok(Start(|w.bits|, Future(w)))
  {
    ReplayOne(t, v, StartRule(Future(w)));
  }

  lemma BeforeFixes(t: Table, w: Rights, fake: Rights)
    requires RightsOk(t, w) && |fake.bits| == |w.bits| && fake.subs == map[]
    requires forall j :: 0 <= j < |w.bits| && !IsId(t, j) ==> fake.bits[j] == AllBits(|w.bits|, Future(w))[j]
    ensures fake.subs == Upto(t, w, 0)
    ensures forall j :: 0 <= j < |w.bits| && fake.bits[j] != w.bits[j] ==> IsId(t, j) && !AmongFirst(t, 0, j)
  {
    hide IsId, SubListOk;
  }

  // -------------------------------------------------------------- replaying the profile

  function ReplayProfile(cfg: Config, p: Profile, rs: seq<Rule>): Outcome<Profile> {
    if rs == [] then Ok(p)
    else
      match ReplayProfile(cfg, p, rs[..|rs| - 1])
      case Ok(p1) => ApplyToProfile(cfg, p1, rs[|rs| - 1])
      case Err(e) => Err(e)
  }

  lemma {:induction false} ProfileConcat(cfg: Config, p: Profile, a: seq<Rule>, b: seq<Rule>, p1: Profile)
    requires ReplayProfile(cfg, p, a) == Ok(p1)
    ensures ReplayProfile(cfg, p, a + b) == ReplayProfile(cfg, p1, b)
    decreases |b|
  {
    hide ApplyToProfile;
    if b == [] {
      assert a + b == a;
    } else {
      assert (a + b)[..|a + b| - 1] == a + b[..|b| - 1];
      ProfileConcat(cfg, p, a, b[..|b| - 1], p1);
    }
  }

  lemma ProfileOne(cfg: Config, p: Profile, r: Rule)
    ensures ReplayProfile(cfg, p, [r]) == ApplyToProfile(cfg, p, r)
  {
    hide ApplyToProfile;
    assert [r][..0] == [];
    assert ReplayProfile(cfg, p, [r][..0]) == Ok(p);
  }

  lemma NewAtEnd(s: seq<string>)
    requires Distinct(s) && s != []
    ensures Distinct(s[..|s| - 1]) && Add(s[..|s| - 1], s[|s| - 1]) == s
  {
    assert s == s[..|s| - 1] + [s[|s| - 1]];
  }

  lemma {:induction false} PasswordsReplay(cfg: Config, p: Profile, s: seq<string>)
    requires p.passwords == [] && PasswordsOk(s)
    ensures ReplayProfile(cfg, p, PasswordRules(s)) == Ok(p.(passwords := s, nopass := p.nopass && s == []))
    decreases |s|
  {
    hide HashOk;
    if s != [] {
      var rs := PasswordRules(s);
      assert rs[..|rs| - 1] == PasswordRules(s[..|s| - 1]);
      NewAtEnd(s);
      hide Distinct, Add;
      PasswordsReplay(cfg, p, s[..|s| - 1]);
    }
  }

  lemma {:induction false} KeysReplay(cfg: Config, p: Profile, s: seq<string>)
    requires p.patterns == [] && !p.allkeys && PatternsOk(s)
    ensures ReplayProfile(cfg, p, Keys(s)) == Ok(p.(patterns := s))
    decreases |s|
  {
    hide HasSpaces;
    if s != [] {
      var rs := Keys(s);
      assert rs[..|rs| - 1] == Keys(s[..|s| - 1]);
      NewAtEnd(s);
      hide Distinct, Add;
      KeysReplay(cfg, p, s[..|s| - 1]);
    }
  }

  lemma {:induction false} ChannelsReplay(cfg: Config, p: Profile, s: seq<string>)
    requires p.channels == [] && !p.allchannels && PatternsOk(s)
    ensures ReplayProfile(cfg, p, Channels(s)) == Ok(p.(channels := s))
    decreases |s|
  {
    hide HasSpaces;
    if s != [] {
      var rs := Channels(s);
      assert rs[..|rs| - 1] == Channels(s[..|s| - 1]);
      NewAtEnd(s);
      hide Distinct, Add;
      ChannelsReplay(cfg, p, s[..|s| - 1]);
    }
  }

  // A user just created, or one that existed and was reset: the two differ in one flag.
  function Blank(cfg: Config, wasReset: bool): Profile {
    NewProfile(cfg).(sanitize := wasReset)
  }

  // What the printed rules make of a reset profile: no rule clears its flag.
  function Restored(p: Profile, wasReset: bool): Profile {
    p.(sanitize := p.sanitize || (wasReset && !p.sanitizeSkip))
  }

  // A blank profile with the flags of p.
  function Flagged(cfg: Config, p: Profile, wasReset: bool): Profile {
    NewProfile(cfg).(enabled := p.enabled, disabled := p.disabled, nopass := p.nopass,
                     sanitize := Restored(p, wasReset).sanitize, sanitizeSkip := p.sanitizeSkip)
  }

  lemma Optional(cfg: Config, p: Profile, a: seq<Rule>, p1: Profile, c: bool, r: Rule)
    requires ReplayProfile(cfg, p, a) == Ok(p1)
    ensures ReplayProfile(cfg, p, a + (if c then [r] else [])) == if c then ApplyToProfile(cfg, p1, r) else Ok(p1)
  {
    hide ApplyToProfile;
    ProfileConcat(cfg, p, a, if c then [r] else [], p1);
    ProfileOne(cfg, p1, r);
  }

  lemma FlagsReplay(cfg: Config, p: Profile, wasReset: bool)
    requires ProfileOk(p)
    ensures ReplayProfile(cfg, Blank(cfg, wasReset), FlagRules(p)) == Ok(Flagged(cfg, p, wasReset))
  {
    hide ReplayProfile, PatternsOk, PasswordsOk;
    var p0 := Blank(cfg, wasReset);
    ProfileNone(cfg, p0);
    var r1 := [] + (if p.enabled then [On] else []);
    Optional(cfg, p0, [], p0, p.enabled, On);
    var p1 := if p.enabled then p0.(enabled := true, disabled := false) else p0;
    Optional(cfg, p0, r1, p1, p.disabled, Off);
    var r2 := r1 + (if p.disabled then [Off] else []);
    Optional(cfg, p0, r2, p1, p.nopass, NoPass);
    var p3 := p1.(nopass := p.nopass);
    var r3 := r2 + (if p.nopass then [NoPass] else []);
    Optional(cfg, p0, r3, p3, p.sanitizeSkip, SkipSanitize);
    var p4 := p3.(sanitizeSkip := p.sanitizeSkip, sanitize := wasReset && !p.sanitizeSkip);
    var r4 := r3 + (if p.sanitizeSkip then [SkipSanitize] else []);
    Optional(cfg, p0, r4, p4, p.sanitize, Sanitize);
    assert FlagRules(p) == r4 + (if p.sanitize then [Sanitize] else []);
  }

  lemma ProfileNone(cfg: Config, p: Profile)
    ensures ReplayProfile(cfg, p, []) == Ok(p)
  {
  }

  lemma KeyRulesReplay(cfg: Config, p: Profile, q: Profile)
    requires ProfileOk(p) && !q.allkeys && q.patterns == []
    ensures ReplayProfile(cfg, q, KeyRules(p)) == Ok(q.(allkeys := p.allkeys, patterns := p.patterns))
  {
    if p.allkeys {
      ProfileOne(cfg, q, AllKeys);
    } else {
      KeysReplay(cfg, q, p.patterns);
    }
  }

  lemma ChannelRulesReplay(cfg: Config, p: Profile, q: Profile)
    requires ProfileOk(p)
    ensures ReplayProfile(cfg, q, ChannelRules(p)) == Ok(q.(allchannels := p.allchannels, channels := p.channels))
  {
    if p.allchannels {
      ProfileOne(cfg, q, AllChannels);
    } else {
      var q1 := q.(allchannels := false, channels := []);
      ProfileOne(cfg, q, ResetChannels);
      ProfileConcat(cfg, q, [ResetChannels], Channels(p.channels), q1);
      ChannelsReplay(cfg, q1, p.channels);
    }
  }

  lemma ProfileRoundTrip(cfg: Config, p: Profile, wasReset: bool)
    requires ProfileOk(p)
    ensures ReplayProfile(cfg, Blank(cfg, wasReset), ProfileRules(p)) == Ok(Restored(p, wasReset))
  {
    hide ReplayProfile, FlagRules, PasswordRules, KeyRules, ChannelRules, PatternsOk;
    var p0 := Blank(cfg, wasReset);
    FlagsReplay(cfg, p, wasReset);
    var p1 := Flagged(cfg, p, wasReset);
    PasswordsReplay(cfg, p1, p.passwords);
    var p2 := p1.(passwords := p.passwords);
    ProfileConcat(cfg, p0, FlagRules(p), PasswordRules(p.passwords), p1);
    KeyRulesReplay(cfg, p, p2);
    var p3 := p2.(allkeys := p.allkeys, patterns := p.patterns);
    ProfileConcat(cfg, p0, FlagRules(p) + PasswordRules(p.passwords), KeyRules(p), p2);
    ChannelRulesReplay(cfg, p, p3);
    ProfileConcat(cfg, p0, FlagRules(p) + PasswordRules(p.passwords) + KeyRules(p), ChannelRules(p), p3);
  }

  // ------------------------------------------------------------------- the whole user

  ghost function UserRules(t: Table, u: User, cats: seq<nat>): seq<Rule>
    requires Fits(t, u.rights) && CategoriesOk(t, cats)
  {
    ProfileRules(u.profile) + RightsRules(t, u.rights, cats)
  }

  // A word that survives in a file: blanks separate words, newlines lines, and tabs and
  // returns are trimmed off the ends of a word.
  predicate CleanEnd(s: string) {
    s != "" ==> s[|s| - 1] != '\t' && s[|s| - 1] != '\r'
  }

  predicate CleanStart(s: string) {
    s != "" ==> s[0] != '\t' && s[0] != '\r'
  }

  predicate Unbroken(s: string) {
    ' ' !in s && '\n' !in s
  }

  predicate Clean(s: string) {
    Unbroken(s) && CleanStart(s) && CleanEnd(s)
  }

  // Rules on the profile whose text is read back, also from a file.
  predicate ProfileRule(r: Rule) {
    !OnRights(r) && r != Reset && Printable(r) && Clean(Print(r)) && Print(r) != ""
  }

  // Rules on the rights whose text is read back; only a subcommand can spoil it in a file.
  predicate RightsRule(r: Rule) {
    && OnRights(r) && Printable(r) && Print(r) != ""
    && (Clean(Print(r)) <==> (r.AllowSub? ==> Unbroken(r.sub) && CleanEnd(r.sub)))
  }

  predicate AllOnRights(rs: seq<Rule>) {
    forall i :: 0 <= i < |rs| ==> RightsRule(rs[i])
  }

  predicate AllOnProfile(rs: seq<Rule>) {
    forall i :: 0 <= i < |rs| ==> ProfileRule(rs[i])
  }

  lemma RightsStep(t: Table, cfg: Config, u: User, r: Rule)
    requires OnRights(r)
    ensures Apply(t, cfg, u, r) == match ApplyToRights(t, u.rights, r)
                                   case Err(e) => Err(e)
                                   case Ok(w) => Ok(u.(rights := w))
  {
    hide ApplyToRights;
  }

  lemma {:induction false} RightsOnly(t: Table, cfg: Config, u: User, rs: seq<Rule>)
    requires AllOnRights(rs) && ReplayRights(t, u.rights, rs).Ok?
    ensures ApplyAll(t, cfg, u, rs) == Ok(u.(rights := ReplayRights(t, u.rights, rs).value))
    decreases |rs|
  {
    hide ApplyToRights, Apply, Printable, Print, OnRights;
    if rs != [] {
      var shorter := rs[..|rs| - 1];
      RightsOnly(t, cfg, u, shorter);
      var r := rs[|rs| - 1];
      assert RightsRule(r);
      RightsStep(t, cfg, ApplyAll(t, cfg, u, shorter).value, r);
    }
  }

  lemma ProfileStep(t: Table, cfg: Config, u: User, r: Rule)
    requires !OnRights(r) && r != Reset
    ensures Apply(t, cfg, u, r) == match ApplyToProfile(cfg, u.profile, r)
                                   case Err(e) => Err(e)
                                   case Ok(p) => Ok(u.(profile := p))
  {
    hide ApplyToProfile;
  }

  lemma {:induction false} ProfileOnly(t: Table, cfg: Config, u: User, rs: seq<Rule>)
    requires AllOnProfile(rs) && ReplayProfile(cfg, u.profile, rs).Ok?
    ensures ApplyAll(t, cfg, u, rs) == Ok(u.(profile := ReplayProfile(cfg, u.profile, rs).value))
    decreases |rs|
  {
    hide ApplyToProfile, Apply, Printable, Print, OnRights;
    if rs != [] {
      var shorter := rs[..|rs| - 1];
      ProfileOnly(t, cfg, u, shorter);
      var r := rs[|rs| - 1];
      assert ProfileRule(r);
      ProfileStep(t, cfg, ApplyAll(t, cfg, u, shorter).value, r);
    }
  }

  // Text behind a solid prefix is clean when it is unbroken and its end is clean.
  lemma CleanBehind(a: string, b: string)
    requires a != "" && forall i :: 0 <= i < |a| ==> !Space(a[i])
    ensures Clean(a) && (Clean(a + b) <==> Unbroken(b) && CleanEnd(b))
  {
    assert forall c :: c in a + b <==> c in a || c in b;
  }

  lemma TextOfCommand(c: Command, sub: string)
    requires NameOk(c.name)
    ensures RightsRule(Allow(c.name)) && RightsRule(Deny(c.name)) && RightsRule(AllowSub(c.name, sub))
  {
    hide Lower, Clean, Unbroken, CleanEnd;
    assert forall i :: 0 <= i < |c.name| ==> !Space(c.name[i]);
    CleanBehind("+" + c.name, "");
    CleanBehind("-" + c.name, "");
    CleanBehind("+" + c.name + "|", sub);
  }

  lemma CommandKind(c: Command, w: Rights, have: bool)
    requires c.id < |w.bits| && NameOk(c.name)
    ensures AllOnRights(CommandRules(c, w, have))
  {
    hide RightsRule, NameOk;
    var rs := CommandRules(c, w, have);
    forall i | 0 <= i < |rs| ensures RightsRule(rs[i]) {
      TextOfCommand(c, if rs[i].AllowSub? then rs[i].sub else "");
    }
  }

  lemma {:induction false} FixesKind(t: Table, w: Rights, bits: seq<bool>, i: nat)
    requires TableOk(t) && i <= |t.commands| && |bits| == |w.bits| && Fits(t, w)
    ensures AllOnRights(Fixes(t, w, bits, i))
    decreases |t.commands| - i
  {
    hide RightsRule, CommandRules, NameOk;
    if i < |t.commands| {
      var c := t.commands[i];
      CommandKind(c, w, bits[c.id]);
      FixesKind(t, w, bits[c.id := w.bits[c.id]], i + 1);
    }
  }

  lemma TextOfCategory(on: bool, name: string)
    requires CategoryOk(name)
    ensures RightsRule(Category(on, name))
  {
    assert forall i :: 0 <= i < |name| ==> !Space(name[i]);
  }

  lemma RightsKind(t: Table, w: Rights, cats: seq<nat>)
    requires TableOk(t) && Fits(t, w) && CategoriesOk(t, cats)
    ensures AllOnRights(RightsRules(t, w, cats))
  {
    hide Fixes, Categorised, RightsRule, CategoryOk, NameOk;
    var fake := Categorised(t, Start(|w.bits|, Future(w)), cats, !Future(w));
    CategorisedLength(t, Start(|w.bits|, Future(w)), cats, !Future(w));
    FixesKind(t, w, fake.bits, 0);
    assert RightsRule(StartRule(Future(w))) by { StartKind(Future(w)); }
    var rs := CategoryRules(t, cats, !Future(w));
    forall i | 0 <= i < |rs| ensures RightsRule(rs[i]) {
      TextOfCategory(!Future(w), t.categories[cats[i]]);
    }
  }

  lemma StartKind(future: bool)
    ensures RightsRule(StartRule(future))
  {
  }

  function BlankUser(t: Table, cfg: Config, wasReset: bool): User {
    User(Blank(cfg, wasReset), NoRights(t.bits))
  }

  // The same user, up to the flag that caches "all commands".
  predicate SameUser(u: User, v: User) {
    u.(rights := u.rights.(all := v.rights.all)) == v
  }

  /** Replaying the printed rules on a new user gives the printed user. */
  lemma RoundTrip(t: Table, cfg: Config, u: User, cats: seq<nat>, wasReset: bool)
    requires TableOk(t) && Valid(t, u) && CategoriesOk(t, cats)
    ensures Fits(t, u.rights)
    ensures var r := ApplyAll(t, cfg, BlankUser(t, cfg, wasReset), UserRules(t, u, cats));
      r.Ok? && SameUser(r.value, u.(profile := Restored(u.profile, wasReset)))
  {
    ValidFits(t, u.rights);
    hide TableOk, ProfileOk, RightsOk, ProfileRules, RightsRules, ReplayProfile, ReplayRights, ApplyAll, AllOnRights, AllOnProfile;
    var u0 := BlankUser(t, cfg, wasReset);
    ProfileRoundTrip(cfg, u.profile, wasReset);
    ProfileKind(u.profile);
    ProfileOnly(t, cfg, u0, ProfileRules(u.profile));
    var u1 := u0.(profile := Restored(u.profile, wasReset));
    RightsRoundTrip(t, u.rights, cats, u1.rights);
    RightsKind(t, u.rights, cats);
    RightsOnly(t, cfg, u1, RightsRules(t, u.rights, cats));
    ApplyConcat(t, cfg, u0, ProfileRules(u.profile), RightsRules(t, u.rights, cats), u1);
  }

  lemma FlagKind(p: Profile)
    ensures AllOnProfile(FlagRules(p))
  {
    hide ProfileRule;
    WordKind(On);
    WordKind(Off);
    WordKind(NoPass);
    WordKind(SkipSanitize);
    WordKind(Sanitize);
  }

  lemma WordKind(r: Rule)
    requires PlainWord(r) && !OnRights(r)
    ensures ProfileRule(r)
  {
  }

  lemma PatternKind(s: string)
    requires s != "*" && !HasSpaces(s)
    ensures ProfileRule(Key(s)) && ProfileRule(Channel(s))
  {
    assert forall i :: 0 <= i < |s| ==> !Space(s[i]);
  }

  lemma HashKind(s: string)
    requires HashOk(s)
    ensures ProfileRule(AddHash(s))
  {
    assert forall i :: 0 <= i < |s| ==> HexDigit(s[i]);
  }

  lemma PasswordKind(s: seq<string>)
    requires PasswordsOk(s)
    ensures AllOnProfile(PasswordRules(s))
  {
    hide ProfileRule, HashOk;
    forall i | 0 <= i < |s| ensures ProfileRule(PasswordRules(s)[i]) { HashKind(s[i]); }
  }

  lemma PatternsKind(s: seq<string>)
    requires PatternsOk(s)
    ensures AllOnProfile(Keys(s)) && AllOnProfile(Channels(s))
  {
    hide ProfileRule, HasSpaces;
    forall i | 0 <= i < |s| ensures ProfileRule(Keys(s)[i]) && ProfileRule(Channels(s)[i]) { PatternKind(s[i]); }
  }

  lemma ProfileKind(p: Profile)
    requires ProfileOk(p)
    ensures AllOnProfile(ProfileRules(p))
  {
    hide ProfileRule, FlagRules, PasswordRules, Keys, Channels, PasswordsOk, PatternsOk;
    FlagKind(p);
    PasswordKind(p.passwords);
    PatternsKind(p.patterns);
    PatternsKind(p.channels);
    WordKind(AllKeys);
    WordKind(AllChannels);
    WordKind(ResetChannels);
  }

  // ------------------------------------------------------------------------- the text

  function Texts(rs: seq<Rule>): seq<string> {
    seq(|rs|, i requires 0 <= i < |rs| => Print(rs[i]))
  }

  function ParseAll(ops: seq<string>): seq<Rule> {
    seq(|ops|, i requires 0 <= i < |ops| => Parse(ops[i]))
  }

  // Rules given one by one as text.
  function SetAll(t: Table, cfg: Config, u: User, ops: seq<string>): Outcome<User> {
    ApplyAll(t, cfg, u, ParseAll(ops))
  }

  lemma TextsReadBack(t: Table, u: User, cats: seq<nat>)
    requires TableOk(t) && Valid(t, u) && CategoriesOk(t, cats)
    ensures Fits(t, u.rights)
    ensures ParseAll(Texts(UserRules(t, u, cats))) == UserRules(t, u, cats)
  {
    ValidFits(t, u.rights);
    hide ProfileRules, RightsRules, TableOk, ProfileOk, RightsOk, Parse, Print, Printable, Acl.OnRights;
    ProfileKind(u.profile);
    RightsKind(t, u.rights, cats);
    var rs := UserRules(t, u, cats);
    forall i | 0 <= i < |rs| ensures Parse(Print(rs[i])) == rs[i] {
      assert ProfileRule(rs[i]) || RightsRule(rs[i]);
      ParsePrint(rs[i]);
    }
  }

  /** What holds of any user that a sequence of textual rules can produce. */
  lemma {:induction false} Reachable(t: Table, cfg: Config, ops: seq<string>)
    requires TableOk(t) && ConfigOk(cfg)
    ensures var r := SetAll(t, cfg, NewUser(t, cfg), ops); r.Ok? ==> Valid(t, r.value)
    decreases |ops|
  {
    hide TableOk, Valid, Apply, Parse, RuleOk;
    if ops == [] {
      NewUserValid(t, cfg);
    } else {
      var shorter := ops[..|ops| - 1];
      Reachable(t, cfg, shorter);
      assert ParseAll(ops)[..|ops| - 1] == ParseAll(shorter);
      ParseOk(ops[|ops| - 1]);
      var r := SetAll(t, cfg, NewUser(t, cfg), shorter);
      if r.Ok? && Apply(t, cfg, r.value, Parse(ops[|ops| - 1])).Ok? {
        ApplyKeeps(t, cfg, r.value, Parse(ops[|ops| - 1]));
      }
    }
  }

  lemma NewUserValid(t: Table, cfg: Config)
    requires TableOk(t)
    ensures Valid(t, NewUser(t, cfg))
  {
    hide IsId, SubListOk;
  }

  /** Setting a user up by any accepted rules, printing it, and setting up a new user from what
      was printed gives the same user: flags, passwords, patterns, channels, command bits and
      subcommands. */
  lemma PrintedRulesRestore(t: Table, cfg: Config, ops: seq<string>, cats: seq<nat>, u: User)
    requires TableOk(t) && ConfigOk(cfg) && CategoriesOk(t, cats)
    requires SetAll(t, cfg, NewUser(t, cfg), ops) == Ok(u)
    ensures Fits(t, u.rights)
    ensures var r := SetAll(t, cfg, NewUser(t, cfg), Texts(UserRules(t, u, cats)));
      r.Ok? && SameUser(r.value, u)
  {
    hide TableOk, Valid, UserRules, ApplyAll;
    Reachable(t, cfg, ops);
    TextsReadBack(t, u, cats);
    RoundTrip(t, cfg, u, cats, false);
  }

  // ---------------------------------------------------------------- printed subcommands

  // Is x listed as a subcommand?
  ghost predicate HasSub(w: Rights, x: string) {
    exists id :: id in w.subs && x in w.subs[id]
  }

  // No subcommand contains a blank or a newline, or ends in a tab or return.
  ghost predicate SubsClean(w: Rights) {
    forall x :: HasSub(w, x) ==> Unbroken(x) && CleanEnd(x)
  }

  lemma {:induction false} FixesSubs(t: Table, w: Rights, bits: seq<bool>, i: nat)
    requires i <= |t.commands| && |bits| == |w.bits| && Fits(t, w)
    ensures forall r :: r in Fixes(t, w, bits, i) && r.AllowSub? ==> HasSub(w, r.sub)
    decreases |t.commands| - i
  {
    if i < |t.commands| {
      var c := t.commands[i];
      FixesSubs(t, w, bits[c.id := w.bits[c.id]], i + 1);
      forall r | r in CommandRules(c, w, bits[c.id]) && r.AllowSub? ensures HasSub(w, r.sub) {
        assert r.sub in w.subs[c.id];
      }
    }
  }

  lemma {:induction false} SubsFixed(t: Table, w: Rights, bits: seq<bool>, i: nat, k: nat, x: string)
    requires i <= k < |t.commands| && |bits| == |w.bits| && Fits(t, w)
    requires !w.bits[t.commands[k].id] && t.commands[k].id in w.subs && x in w.subs[t.commands[k].id]
    ensures AllowSub(t.commands[k].name, x) in Fixes(t, w, bits, i)
    decreases k - i
  {
    var c := t.commands[i];
    if i == k {
      var subs := w.subs[c.id];
      var j :| 0 <= j < |subs| && subs[j] == x;
      assert SubRules(c.name, subs)[j] == AllowSub(c.name, x);
    } else {
      SubsFixed(t, w, bits[c.id := w.bits[c.id]], i + 1, k, x);
    }
  }

  // The texts of the command rules are clean exactly when the subcommands are.
  lemma RulesClean(t: Table, w: Rights, cats: seq<nat>)
    requires TableOk(t) && RightsOk(t, w) && CategoriesOk(t, cats) && Fits(t, w)
    ensures (forall r :: r in RightsRules(t, w, cats) ==> Clean(Print(r))) <==> SubsClean(w)
  {
    hide TableOk, SubListOk, Fixes, Categorised, Print, OnRights, Printable, HasSub, Clean, Unbroken, CleanEnd;
    var fake := Categorised(t, Start(|w.bits|, Future(w)), cats, !Future(w));
    CategorisedLength(t, Start(|w.bits|, Future(w)), cats, !Future(w));
    var rs := RightsRules(t, w, cats);
    RightsKind(t, w, cats);
    if SubsClean(w) {
      FixesSubs(t, w, fake.bits, 0);
      forall r | r in rs ensures Clean(Print(r)) {
        assert RightsRule(r);
        assert r.AllowSub? ==> r in Fixes(t, w, fake.bits, 0);
      }
    }
    if forall r :: r in rs ==> Clean(Print(r)) {
      forall x | HasSub(w, x) ensures Unbroken(x) && CleanEnd(x) {
        var k := Holder(t, w, x);
        SubsFixed(t, w, fake.bits, 0, k, x);
        var r := AllowSub(t.commands[k].name, x);
        assert r in rs && RightsRule(r);
      }
    }
  }

  lemma Holder(t: Table, w: Rights, x: string) returns (k: nat)
    requires RightsOk(t, w) && HasSub(w, x)
    ensures k < |t.commands| && t.commands[k].id < |w.bits| && !w.bits[t.commands[k].id]
    ensures t.commands[k].id in w.subs && x in w.subs[t.commands[k].id]
  {
    hide SubListOk;
    var id :| id in w.subs && x in w.subs[id];
    assert IsId(t, id);
    k :| 0 <= k < |t.commands| && t.commands[k].id == id;
  }

  /** Every text printed for a user is clean exactly when its subcommands are. */
  lemma TextsClean(t: Table, u: User, cats: seq<nat>)
    requires TableOk(t) && Valid(t, u) && CategoriesOk(t, cats)
    ensures Fits(t, u.rights)
    ensures var texts := Texts(UserRules(t, u, cats));
      && texts != [] && (forall i :: 0 <= i < |texts| ==> texts[i] != "")
      && ((forall i :: 0 <= i < |texts| ==> Clean(texts[i])) <==> SubsClean(u.rights))
  {
    ValidFits(t, u.rights);
    assert RightsRules(t, u.rights, cats) != [];
    hide *;
    ProfileKind(u.profile);
    RightsKind(t, u.rights, cats);
    RulesClean(t, u.rights, cats);
    CleanAmong(ProfileRules(u.profile), RightsRules(t, u.rights, cats));
    Halves(t, u, cats);
  }

  lemma Halves(t: Table, u: User, cats: seq<nat>)
    requires Fits(t, u.rights) && CategoriesOk(t, cats)
    ensures UserRules(t, u, cats) == ProfileRules(u.profile) + RightsRules(t, u.rights, cats)
  {
  }

  lemma CleanAmong(a: seq<Rule>, b: seq<Rule>)
    requires AllOnProfile(a) && AllOnRights(b) && b != []
    ensures var texts := Texts(a + b);
      && texts != [] && (forall i :: 0 <= i < |texts| ==> texts[i] != "")
      && ((forall i :: 0 <= i < |texts| ==> Clean(texts[i])) <==> forall r :: r in b ==> Clean(Print(r)))
  {
    hide Print, Printable, OnRights, Clean, Unbroken, CleanEnd;
    var texts := Texts(a + b);
    forall i | 0 <= i < |a| ensures texts[i] == Print(a[i]) && Clean(texts[i]) && texts[i] != "" {
      assert ProfileRule(a[i]);
    }
    forall i | 0 <= i < |b| ensures texts[|a| + i] == Print(b[i]) && texts[|a| + i] != "" {
      assert RightsRule(b[i]);
    }
    forall i | |a| <= i < |texts| ensures texts[i] == Print(b[i - |a|]) && texts[i] != "" {
      assert texts[|a| + (i - |a|)] == Print(b[i - |a|]);
    }
    if forall i :: 0 <= i < |texts| ==> Clean(texts[i]) {
      forall r | r in b ensures Clean(Print(r)) {
        var i :| 0 <= i < |b| && b[i] == r;
        assert texts[|a| + i] == Print(r);
      }
    }
  }
}
