/**
A user as it is kept: flags, lists, a bitmap and a table of subcommands, all updated in place.
*/
module AclUser {
  import opened Options
  import opened Acl
  import opened AclDescribe

  class UserObject {
    const t: Table
    const cfg: Config

    var enabled: bool
    var disabled: bool
    var allkeys: bool
    var allchannels: bool
    var nopass: bool
    var sanitizeSkip: bool
    var sanitize: bool
    var passwords: seq<string>
    var patterns: seq<string>
    var channels: seq<string>

    const bits: array<bool>
    var subs: map<nat, seq<string>>
    var all: bool

    ghost function GetProfile(): Profile
      reads this
    {
      Profile(enabled, disabled, allkeys, allchannels, nopass, sanitizeSkip, sanitize, passwords, patterns, channels)
    }

    ghost function GetRights(): Rights
      reads this, bits
    {
      Rights(bits[..], subs, all)
    }

    ghost function Abs(): User
      reads this, bits
    {
      User(GetProfile(), GetRights())
    }

    constructor (t: Table, cfg: Config)
      ensures this.t == t && this.cfg == cfg && fresh(bits) && Abs() == NewUser(t, cfg)
    {
      this.t, this.cfg := t, cfg;
      enabled, disabled, allkeys, allchannels, nopass := false, true, false, cfg.allChannelsByDefault, false;
      sanitizeSkip, sanitize := false, false;
      passwords, patterns, channels := [], [], [];
      var b := new bool[t.bits](i => false);
      bits, subs, all := b, map[], false;
      new;
      assert bits[..] == AllBits(t.bits, false);
    }

    // -------------------------------------------------------------------- the commands

    method SetUserCommandBit(id: nat, v: bool)
      modifies `all, bits
      ensures GetRights() == SetCommand(old(GetRights()), id, v).(subs := subs)
    {
      if id < bits.Length {
        bits[id] := v;
        if !v { all := false; }
      }
    }

    method ResetSubcommandsForCommand(id: nat)
      modifies `subs
      ensures GetRights() == old(GetRights()).(subs := old(subs) - {id})
    {
      subs := subs - {id};
    }

    method AddAllowedSubcommand(id: nat, sub: string)
      modifies `subs
      ensures GetRights() == AddSub(old(GetRights()), id, sub)
    {
      var have := if id in subs then subs[id] else [];
      var items := 0;
      while items < |have|
        invariant 0 <= items <= |have|
        invariant subs == old(subs)
        invariant forall i :: 0 <= i < items ==> Lower(have[i]) != Lower(sub)
      {
        if Lower(have[items]) == Lower(sub) { return; }
        items := items + 1;
      }
      subs := subs[id := have + [sub]];
    }

    method SetCommandBitsForCategory(category: string, v: bool) returns (found: bool)
      modifies `all, `subs, bits
      ensures var i := FindCategory(t.categories, category, 0);
        found == i.Some? && GetRights() == if found then SetCategory(t.commands, old(GetRights()), i.value, v) else old(GetRights())
    {
      var cat := FindCategory(t.categories, category, 0);
      if cat.None? { return false; }
      var k := 0;
      assert t.commands[..0] == [];
      while k < |t.commands|
        invariant 0 <= k <= |t.commands|
        invariant GetRights() == SetCategory(t.commands[..k], old(GetRights()), cat.value, v)
      {
        var c := t.commands[k];
        ghost var before := GetRights();
        if !c.isModule && cat.value in c.cats {
          SetUserCommandBit(c.id, v);
          ResetSubcommandsForCommand(c.id);
          assert GetRights() == SetCommand(before, c.id, v);
        }
        k := k + 1;
        assert t.commands[..k][..k - 1] == t.commands[..k - 1];
      }
      assert t.commands[..k] == t.commands;
      found := true;
    }

    // How many commands of the category are on, and how many are off.
    method CountCategoryBits(cat: nat) returns (on: nat, off: nat)
      ensures on == Count(t.commands, bits[..], cat, true) && off == Count(t.commands, bits[..], cat, false)
    {
      on, off := 0, 0;
      var k := 0;
      while k < |t.commands|
        invariant 0 <= k <= |t.commands|
        invariant on == Count(t.commands[..k], bits[..], cat, true) && off == Count(t.commands[..k], bits[..], cat, false)
      {
        var c := t.commands[k];
        if cat in c.cats {
          if c.id < bits.Length && bits[c.id] { on := on + 1; } else { off := off + 1; }
        }
        k := k + 1;
        assert t.commands[..k][..k - 1] == t.commands[..k - 1];
      }
      assert t.commands[..k] == t.commands;
    }

    method SetRights(r: Rule) returns (err: Option<Error>)
      requires OnRights(r)
      modifies `all, `subs, bits
      ensures match ApplyToRights(t, old(GetRights()), r)
              case Ok(w) => err == None && GetRights() == w
              case Err(e) => err == Some(e) && GetRights() == old(GetRights())
    {
      match r
      case AllCommands => FillBits(true); all, subs := true, map[]; return None;
      case NoCommands => FillBits(false); all, subs := false, map[]; return None;
      case Allow(name) => err := SetOne(name, true);
      case Deny(name) => err := SetOne(name, false);
      case AllowSub(name, sub) => err := SetSub(name, sub);
      case Category(on, name) =>
        var found := SetCommandBitsForCategory(name, on);
        return if found then None else Some(NoEntry);
    }

    method FillBits(v: bool)
      modifies bits
      ensures bits[..] == AllBits(bits.Length, v)
    {
      var k := 0;
      while k < bits.Length
        invariant 0 <= k <= bits.Length
        invariant forall i :: 0 <= i < k ==> bits[i] == v
      {
        bits[k] := v;
        k := k + 1;
      }
    }

    method SetOne(name: string, v: bool) returns (err: Option<Error>)
      modifies `all, `subs, bits
      ensures match ApplyToRights(t, old(GetRights()), if v then Allow(name) else Deny(name))
              case Ok(w) => err == None && GetRights() == w
              case Err(e) => err == Some(e) && GetRights() == old(GetRights())
    {
      var c := Find(t.commands, name);
      if c.None? { return Some(NoEntry); }
      SetUserCommandBit(c.value.id, v);
      ResetSubcommandsForCommand(c.value.id);
      return None;
    }

    method SetSub(name: string, sub: string) returns (err: Option<Error>)
      modifies `subs
      ensures match ApplyToRights(t, old(GetRights()), AllowSub(name, sub))
              case Ok(w) => err == None && GetRights() == w
              case Err(e) => err == Some(e) && GetRights() == old(GetRights())
    {
      var c := Find(t.commands, name);
      if c.None? { return Some(NoEntry); }
      if sub == "" { return Some(Invalid); }
      if !(c.value.id < bits.Length && bits[c.value.id]) {
        AddAllowedSubcommand(c.value.id, sub);
      }
      return None;
    }

    // --------------------------------------------------------------------- the profile

    method SetPasswords(r: Rule) returns (err: Option<Error>)
      requires r.AddPassword? || r.AddHash? || r.DelPassword? || r.DelHash?
      modifies `passwords, `nopass
      ensures match ApplyToProfile(cfg, old(GetProfile()), r)
              case Ok(p) => err == None && GetProfile() == p
              case Err(e) => err == Some(e) && GetProfile() == old(GetProfile())
    {
      var h: string;
      if r.AddPassword? || r.DelPassword? {
        h := cfg.hash(r.clear);
      } else {
        h := r.hash;
        if !HashOk(h) { return Some(BadHash); }
      }
      if r.AddPassword? || r.AddHash? {
        if h !in passwords { passwords := passwords + [h]; }
        nopass := false;
      } else if h in passwords {
        passwords := Remove(passwords, h);
      } else {
        return Some(NoPassword);
      }
      return None;
    }

    method SetPattern(r: Rule) returns (err: Option<Error>)
      requires r.Key? || r.Channel?
      modifies `patterns, `channels
      ensures match ApplyToProfile(cfg, old(GetProfile()), r)
              case Ok(p) => err == None && GetProfile() == p
              case Err(e) => err == Some(e) && GetProfile() == old(GetProfile())
    {
      if r.Key? && allkeys { return Some(KeysExist); }
      if r.Channel? && allchannels { return Some(ChannelsExist); }
      if HasSpaces(r.pattern) { return Some(Invalid); }
      if r.Key? && r.pattern !in patterns { patterns := patterns + [r.pattern]; }
      if r.Channel? && r.pattern !in channels { channels := channels + [r.pattern]; }
      return None;
    }

    method SetFlags(r: Rule)
      requires PlainWord(r) && !OnRights(r)
      modifies `enabled, `disabled, `allkeys, `allchannels, `nopass, `sanitizeSkip, `sanitize, `passwords, `patterns, `channels
      ensures ApplyToProfile(cfg, old(GetProfile()), r) == Ok(GetProfile())
    {
      match r
      case On => enabled, disabled := true, false;
      case Off => disabled, enabled := true, false;
      case SkipSanitize => sanitizeSkip, sanitize := true, false;
      case Sanitize => sanitizeSkip, sanitize := false, true;
      case AllKeys => allkeys, patterns := true, [];
      case ResetKeys => allkeys, patterns := false, [];
      case AllChannels => allchannels, channels := true, [];
      case ResetChannels => allchannels, channels := false, [];
      case NoPass => nopass, passwords := true, [];
      case ResetPass => nopass, passwords := false, [];
    }

    // The reset rule is a sequence of other rules.
    method ResetProfile()
      modifies `enabled, `disabled, `allkeys, `allchannels, `nopass, `sanitizeSkip, `sanitize, `passwords, `patterns, `channels
      ensures ApplyToProfile(cfg, old(GetProfile()), Reset) == Ok(GetProfile())
    {
      hide ApplyToProfile, GetProfile;
      ghost var p := GetProfile();
      SetFlags(ResetPass);
      ghost var p1 := GetProfile();
      SetFlags(ResetKeys);
      ghost var p2 := GetProfile();
      SetFlags(ResetChannels);
      ghost var p3 := GetProfile();
      if cfg.allChannelsByDefault { SetFlags(AllChannels); }
      ghost var p4 := GetProfile();
      SetFlags(Off);
      ghost var p5 := GetProfile();
      SetFlags(Sanitize);
      ResetSteps(cfg, p, p1, p2, p3, p4, p5, GetProfile());
    }

    method ResetAll()
      modifies this, bits
      ensures Apply(t, cfg, old(Abs()), Reset) == Ok(Abs())
    {
      hide ApplyToProfile, ApplyToRights;
      ResetProfile();
      var err := SetRights(NoCommands);
      ResetBoth(t, cfg, old(Abs()));
    }

    /** One rule, given as text, changes the user as the rules say or not at all. */
    method SetUser(op: string) returns (err: Option<Error>)
      modifies this, bits
      ensures match Apply(t, cfg, old(Abs()), Parse(op))
              case Ok(u) => err == None && Abs() == u
              case Err(e) => err == Some(e) && Abs() == old(Abs())
    {
      hide Parse, ApplyToRights, ApplyToProfile;
      var r := Parse(op);
      Steps(t, cfg, Abs(), r);
      if OnRights(r) {
        err := SetRights(r);
      } else if PlainWord(r) {
        SetFlags(r);
        err := None;
      } else if r.Reset? {
        ResetAll();
        err := None;
      } else if r.Key? || r.Channel? {
        err := SetPattern(r);
      } else if r.Nothing? {
        err := None;
      } else if r.Unknown? {
        err := Some(Invalid);
      } else {
        err := SetPasswords(r);
      }
    }

    // ------------------------------------------------------------------- the printer

    // The category, not yet used, that fits best: fewest wrong commands, then most right ones.
    method BestCategory(applied: seq<bool>, additive: bool) returns (best: Option<nat>)
      requires |applied| == |t.categories|
      ensures best.Some? ==> best.value < |applied| && Candidate(t, bits[..], applied, additive, best.value)
      ensures best.Some? ==> forall j :: 0 <= j < |applied| && Candidate(t, bits[..], applied, additive, j) ==>
                !Better(t, bits[..], additive, j, best.value)
      ensures best.None? ==> forall j :: 0 <= j < |applied| ==> !Candidate(t, bits[..], applied, additive, j)
    {
      best := None;
      var mindiff, maxsame := INT_MAX, 0;
      var j := 0;
      while j < |applied|
        invariant 0 <= j <= |applied|
        invariant best.None? ==> mindiff == INT_MAX && maxsame == 0
        invariant best.Some? ==> best.value < j && Candidate(t, bits[..], applied, additive, best.value)
        invariant best.Some? ==> mindiff == Diff(t, bits[..], additive, best.value) && maxsame == Same(t, bits[..], additive, best.value)
        invariant forall i :: 0 <= i < j && Candidate(t, bits[..], applied, additive, i) ==>
                    best.Some? && !Better(t, bits[..], additive, i, best.value)
      {
        if !applied[j] {
          var on, off := CountCategoryBits(j);
          var diff := if additive then off else on;
          var same := if additive then on else off;
          if same > diff && (diff < mindiff || (diff == mindiff && same > maxsame)) {
            best, mindiff, maxsame := Some(j), diff, same;
          }
        }
        j := j + 1;
      }
    }

    // Write a rule on commands down and follow what is written.
    method Follow(r: Rule)
      requires OnRights(r) && Printable(r)
      modifies this, bits
      ensures match ApplyToRights(t, old(GetRights()), r)
              case Ok(w) => GetRights() == w
              case Err(e) => GetRights() == old(GetRights())
    {
      hide Parse, Print, Printable, ApplyToRights, ApplyToProfile;
      ParsePrint(r);
      Steps(t, cfg, Abs(), r);
      var err := SetUser(Print(r));
    }

    method CopyBits(from: array<bool>)
      requires from.Length == bits.Length && from != bits
      modifies bits
      ensures bits[..] == from[..]
    {
      var k := 0;
      while k < bits.Length
        invariant 0 <= k <= bits.Length
        invariant bits[..k] == from[..k]
      {
        bits[k] := from[k];
        k := k + 1;
      }
    }

    // Take the best category while one is good; `this` keeps track of what is still wanted.
    method DescribeCategories(fake: UserObject, additive: bool) returns (rules: seq<Rule>, ghost cats: seq<nat>)
      requires TableOk(t) && fake.t == t && fake != this && fake.bits != bits
      modifies this, bits, fake, fake.bits
      ensures CategoriesOk(t, cats) && rules == CategoryRules(t, cats, additive)
      ensures fake.GetRights() == Categorised(t, old(fake.GetRights()), cats, additive)
    {
      hide TableOk, Categorised, CategoryRules, ApplyToRights, CategoryOk, Better, Same, Diff;
      ghost var first := fake.GetRights();
      rules, cats := [], [];
      NoCategories(t, first, additive);
      var applied := AllBits(|t.categories|, false);
      while true
        invariant |applied| == |t.categories|
        invariant CategoriesOk(t, cats) && rules == CategoryRules(t, cats, additive)
        invariant fake.GetRights() == Categorised(t, first, cats, additive)
        decreases Unused(applied)
      {
        var best := BestCategory(applied, additive);
        if best.None? { break; }
        assert !applied[best.value];
        var op := Category(additive, t.categories[best.value]);
        CategoryStep(t, first, cats, additive, best.value);
        fake.Follow(op);
        Follow(Category(!additive, t.categories[best.value]));
        rules := rules + [op];
        cats := cats + [best.value];
        UseOne(applied, best.value);
        applied := applied[best.value := true];
      }
    }

    // Put right, one command at a time, what the categories got wrong.
    method DescribeFixes(fake: UserObject) returns (rules: seq<Rule>)
      requires TableOk(t) && Fits(t, GetRights()) && fake != this && fake.bits != bits && fake.bits.Length == bits.Length
      requires OnlyCommandsDiffer(t, GetRights(), fake.bits[..], 0)
      modifies fake, fake.bits
      ensures fake.bits[..] == bits[..]
      ensures rules == Fixes(t, GetRights(), old(fake.bits[..]), 0)
    {
      hide Fixes, CommandRules, TableOk, OnlyCommandsDiffer, Lower, SubsOf;
      ghost var w := GetRights();
      ghost var start := fake.bits[..];
      rules := [];
      var k := 0;
      assert rules + Fixes(t, w, start, 0) == Fixes(t, w, start, 0);
      while k < |t.commands|
        invariant 0 <= k <= |t.commands| && GetRights() == w && fake.bits.Length == |w.bits|
        invariant rules + Fixes(t, w, fake.bits[..], k) == Fixes(t, w, start, 0)
        invariant OnlyCommandsDiffer(t, w, fake.bits[..], k)
      {
        var c := t.commands[k];
        ghost var before, had := fake.bits[..], rules;
        rules := rules + CommandRules(c, Rights(bits[..], subs, all), fake.bits[c.id]);
        if bits[c.id] != fake.bits[c.id] {
          fake.SetUserCommandBit(c.id, bits[c.id]);
        }
        assert fake.bits[..] == before[c.id := w.bits[c.id]];
        FixStep(t, w, before, k, had);
        k := k + 1;
      }
      DoneFixing(t, w, fake.bits[..]);
    }

    /** The rules on commands.  The comparison with which the printer would give up cannot fail. */
    method DescribeCommandRules() returns (rules: seq<Rule>)
      requires TableOk(t) && RightsOk(t, GetRights())
      ensures Describes(t, GetRights(), rules)
    {
      ghost var w := GetRights();
      ValidFits(t, w);
      hide TableOk, RightsOk, Fixes, Categorised, CategoryRules;
      var future := bits[bits.Length - 1];
      var fake := new UserObject(t, cfg);
      StartText(future);
      fake.Follow(StartRule(future));
      ghost var first := Start(bits.Length, future);
      assert fake.GetRights() == first;
      var temp := new UserObject(t, cfg);
      temp.CopyBits(bits);
      var head;
      ghost var cats;
      head, cats := temp.DescribeCategories(fake, !future);
      CategorisedFrame(t, first, cats, !future);
      StartDiffers(t, w, fake.bits[..]);
      var tail := DescribeFixes(fake);
      assert fake.bits[..] == bits[..];
      rules := [StartRule(future)] + head + tail;
      assert rules == RightsRules(t, w, cats);
    }

    /** The whole user as text. */
    method DescribeUser() returns (texts: seq<string>)
      requires TableOk(t) && Valid(t, Abs())
      ensures DescribesUser(t, Abs(), texts)
    {
      hide TableOk, RightsOk, Fits, RightsRules, ProfileRules, Print;
      var p := Profile(enabled, disabled, allkeys, allchannels, nopass, sanitizeSkip, sanitize, passwords, patterns, channels);
      var rules := DescribeCommandRules();
      ghost var cats :| CategoriesOk(t, cats) && rules == RightsRules(t, GetRights(), cats);
      texts := Texts(ProfileRules(p) + rules);
      assert texts == Texts(UserRules(t, Abs(), cats));
    }
  }

  // The rules are those of the rights for some choice of categories.
  ghost predicate Describes(t: Table, w: Rights, rules: seq<Rule>) {
    Fits(t, w) && exists cats :: CategoriesOk(t, cats) && rules == RightsRules(t, w, cats)
  }

  ghost predicate DescribesUser(t: Table, u: User, texts: seq<string>) {
    Fits(t, u.rights) && exists cats :: CategoriesOk(t, cats) && texts == Texts(UserRules(t, u, cats))
  }

  /** So whatever the printer prints for a user that rules have set up, the texts set up the same
      user again. */
  lemma DescribedUserRestored(t: Table, cfg: Config, ops: seq<string>, u: User, texts: seq<string>)
    requires TableOk(t) && ConfigOk(cfg) && SetAll(t, cfg, NewUser(t, cfg), ops) == Ok(u)
    requires DescribesUser(t, u, texts)
    ensures var r := SetAll(t, cfg, NewUser(t, cfg), texts);
      r.Ok? && r.value.(rights := r.value.rights.(all := u.rights.all)) == u
  {
    hide TableOk, SetAll, Fits, UserRules, Texts, NewUser;
    var cats :| CategoriesOk(t, cats) && texts == Texts(UserRules(t, u, cats));
    PrintedRulesRestore(t, cfg, ops, cats, u);
  }

  const INT_MAX := 0x7fff_ffff

  // Commands of the category that the category rule would get right, and those it would not.
  function Same(t: Table, bits: seq<bool>, additive: bool, j: nat): nat {
    Count(t.commands, bits, j, additive)
  }

  function Diff(t: Table, bits: seq<bool>, additive: bool, j: nat): nat {
    Count(t.commands, bits, j, !additive)
  }

  predicate Candidate(t: Table, bits: seq<bool>, applied: seq<bool>, additive: bool, j: nat)
    requires j < |applied|
  {
    !applied[j] && Diff(t, bits, additive, j) < Same(t, bits, additive, j) && Diff(t, bits, additive, j) <= INT_MAX
  }

  predicate Better(t: Table, bits: seq<bool>, additive: bool, i: nat, j: nat) {
    || Diff(t, bits, additive, i) < Diff(t, bits, additive, j)
    || (Diff(t, bits, additive, i) == Diff(t, bits, additive, j) && Same(t, bits, additive, i) > Same(t, bits, additive, j))
  }

  // The commands of a category that have the bit v.
  function Count(cs: seq<Command>, bits: seq<bool>, cat: nat, v: bool): nat {
    if cs == [] then 0
    else
      var c := cs[|cs| - 1];
      var have := c.id < |bits| && bits[c.id];
      Count(cs[..|cs| - 1], bits, cat, v) + if cat in c.cats && have == v then 1 else 0
  }

  // A rule works on one part of the user and leaves the other alone.
  lemma Steps(t: Table, cfg: Config, u: User, r: Rule)
    ensures OnRights(r) ==> Apply(t, cfg, u, r) == match ApplyToRights(t, u.rights, r)
                                                   case Err(e) => Err(e)
                                                   case Ok(w) => Ok(u.(rights := w))
    ensures !OnRights(r) && r != Reset ==> Apply(t, cfg, u, r) == match ApplyToProfile(cfg, u.profile, r)
                                                                  case Err(e) => Err(e)
                                                                  case Ok(p) => Ok(u.(profile := p))
    ensures r.Nothing? ==> Apply(t, cfg, u, r) == Ok(u)
    ensures r.Unknown? ==> Apply(t, cfg, u, r) == Err(Invalid)
  {
    if OnRights(r) {
      RightsStep(t, cfg, u, r);
    } else if r != Reset {
      ProfileStep(t, cfg, u, r);
    }
  }

  lemma ResetBoth(t: Table, cfg: Config, u: User)
    requires ApplyToProfile(cfg, u.profile, Reset).Ok?
    ensures ApplyToRights(t, u.rights, NoCommands).Ok?
    ensures Apply(t, cfg, u, Reset) ==
      Ok(User(ApplyToProfile(cfg, u.profile, Reset).value, ApplyToRights(t, u.rights, NoCommands).value))
  {
  }

  lemma ResetSteps(cfg: Config, p: Profile, p1: Profile, p2: Profile, p3: Profile, p4: Profile, p5: Profile, p6: Profile)
    requires ApplyToProfile(cfg, p, ResetPass) == Ok(p1) && ApplyToProfile(cfg, p1, ResetKeys) == Ok(p2)
    requires ApplyToProfile(cfg, p2, ResetChannels) == Ok(p3)
    requires if cfg.allChannelsByDefault then ApplyToProfile(cfg, p3, AllChannels) == Ok(p4) else p4 == p3
    requires ApplyToProfile(cfg, p4, Off) == Ok(p5) && ApplyToProfile(cfg, p5, Sanitize) == Ok(p6)
    ensures ApplyToProfile(cfg, p, Reset) == Ok(p6)
  {
  }

  lemma NoCategories(t: Table, w: Rights, on: bool)
    ensures CategoryRules(t, [], on) == [] && Categorised(t, w, [], on) == w
  {
  }

  lemma CategoryStep(t: Table, w: Rights, cats: seq<nat>, on: bool, j: nat)
    requires TableOk(t) && CategoriesOk(t, cats) && j < |t.categories|
    ensures Printable(Category(on, t.categories[j])) && Printable(Category(!on, t.categories[j]))
    ensures CategoryRules(t, cats + [j], on) == CategoryRules(t, cats, on) + [Category(on, t.categories[j])]
    ensures ApplyToRights(t, Categorised(t, w, cats, on), Category(on, t.categories[j])) ==
      Ok(Categorised(t, w, cats + [j], on))
  {
    FindCategorySelf(t, j, 0);
    assert (cats + [j])[..|cats|] == cats;
    assert CategoryOk(t.categories[j]);
  }

  function Unused(applied: seq<bool>): nat {
    if applied == [] then 0 else Unused(applied[..|applied| - 1]) + if applied[|applied| - 1] then 0 else 1
  }

  lemma {:induction false} UseOne(applied: seq<bool>, j: nat)
    requires j < |applied| && !applied[j]
    ensures Unused(applied[j := true]) == Unused(applied) - 1
    decreases |applied|
  {
    var n := |applied| - 1;
    if j < n {
      assert applied[j := true][..n] == applied[..n][j := true];
      UseOne(applied[..n], j);
    } else {
      assert applied[j := true][..n] == applied[..n];
    }
  }

  // Only the bits of commands from number i on may be wrong.
  ghost predicate OnlyCommandsDiffer(t: Table, w: Rights, bits: seq<bool>, i: nat)
    requires i <= |t.commands| && |bits| == |w.bits|
  {
    forall j :: 0 <= j < |bits| && bits[j] != w.bits[j] ==> IsId(t, j) && !AmongFirst(t, i, j)
  }

  lemma FixStep(t: Table, w: Rights, bits: seq<bool>, i: nat, rules: seq<Rule>)
    requires Fits(t, w) && i < |t.commands| && |bits| == |w.bits| && OnlyCommandsDiffer(t, w, bits, i)
    ensures var c := t.commands[i];
      var bits1 := bits[c.id := w.bits[c.id]];
      && OnlyCommandsDiffer(t, w, bits1, i + 1)
      && rules + CommandRules(c, w, bits[c.id]) + Fixes(t, w, bits1, i + 1) == rules + Fixes(t, w, bits, i)
  {
    hide CommandRules;
    var c := t.commands[i];
    var bits1 := bits[c.id := w.bits[c.id]];
    forall j | 0 <= j < |bits1| && bits1[j] != w.bits[j]
      ensures IsId(t, j) && !AmongFirst(t, i + 1, j)
    {
      assert j != c.id && bits[j] != w.bits[j];
    }
  }

  lemma DoneFixing(t: Table, w: Rights, bits: seq<bool>)
    requires Fits(t, w) && |bits| == |w.bits| && OnlyCommandsDiffer(t, w, bits, |t.commands|)
    ensures bits == w.bits && Fixes(t, w, bits, |t.commands|) == []
  {
    forall j ensures AmongFirst(t, |t.commands|, j) == IsId(t, j) {
    }
  }

  lemma StartText(future: bool)
    ensures Printable(StartRule(future)) && OnRights(StartRule(future))
  {
  }

  lemma StartDiffers(t: Table, w: Rights, bits: seq<bool>)
    requires RightsOk(t, w) && |bits| == |w.bits|
    requires forall j :: 0 <= j < |w.bits| && !IsId(t, j) ==> bits[j] == AllBits(|w.bits|, Future(w))[j]
    ensures OnlyCommandsDiffer(t, w, bits, 0)
  {
    hide IsId, SubListOk;
  }
}
