/**
Access rules of a user: the interpreter of rules and the printer that compresses a command
bitmap into categories and single commands.

The printer may pick any categories; the commands it emits afterwards repair whatever the
categories got wrong.  Replaying what is printed on a new user restores the printed user.
*/
module Acl {
  import opened Options

  // ---------------------------------------------------------------------- the commands

  datatype Command = Command(name: string, id: nat, cats: set<nat>, isModule: bool)

  // `bits` is the size of a user's bitmap; its last bit belongs to no command.
  datatype Table = Table(commands: seq<Command>, categories: seq<string>, bits: nat)

  function LowerChar(c: char): char {
    if 'A' <= c <= 'Z' then c - 'A' + 'a' else c
  }

  function Lower(s: string): string {
    seq(|s|, i requires 0 <= i < |s| => LowerChar(s[i]))
  }

  ghost predicate TableOk(t: Table) {
    && t.bits > 0
    && (forall i :: 0 <= i < |t.commands| ==> NameOk(t.commands[i].name) && t.commands[i].id < t.bits - 1)
    && (forall i, j :: 0 <= i < j < |t.commands| ==>
          t.commands[i].id != t.commands[j].id && t.commands[i].name != t.commands[j].name)
    && (forall i :: 0 <= i < |t.categories| ==> CategoryOk(t.categories[i]))
    && (forall i, j :: 0 <= i < j < |t.categories| ==> t.categories[i] != t.categories[j])
  }

  // Command names are lower case and cannot be mistaken for anything else in a rule.
  predicate NameOk(name: string) {
    |name| > 0 && Lower(name) == name && name[0] != '@' && '|' !in name && !HasSpaces(name)
  }

  predicate CategoryOk(name: string) {
    Lower(name) == name && name != "all" && !HasSpaces(name)
  }

  function Find(cs: seq<Command>, name: string): (r: Option<Command>)
    ensures r.Some? ==> r.value in cs && r.value.name == Lower(name)
  {
    if cs == [] then None else if cs[0].name == Lower(name) then Some(cs[0]) else Find(cs[1..], name)
  }

  function FindCategory(names: seq<string>, name: string, i: nat): (r: Option<nat>)
    requires i <= |names|
    ensures r.Some? ==> i <= r.value < |names| && names[r.value] == Lower(name)
    decreases |names| - i
  {
    if i == |names| then None
    else if names[i] == Lower(name) then Some(i)
    else FindCategory(names, name, i + 1)
  }

  // -------------------------------------------------------------------------- the user

  // Which commands may be run, and which subcommands of commands that may not.
  datatype Rights = Rights(bits: seq<bool>, subs: map<nat, seq<string>>, all: bool)

  datatype Profile = Profile(
    enabled: bool, disabled: bool, allkeys: bool, allchannels: bool, nopass: bool,
    sanitizeSkip: bool, sanitize: bool,
    passwords: seq<string>, patterns: seq<string>, channels: seq<string>
  )

  datatype User = User(profile: Profile, rights: Rights)

  datatype Config = Config(hash: string -> string, allChannelsByDefault: bool)

  function AllBits(n: nat, v: bool): (s: seq<bool>)
    ensures |s| == n && forall i :: 0 <= i < n ==> s[i] == v
  {
    seq(n, i => v)
  }

  function NewProfile(cfg: Config): Profile {
    Profile(false, true, false, cfg.allChannelsByDefault, false, false, false, [], [], [])
  }

  function NoRights(n: nat): Rights {
    Rights(AllBits(n, false), map[], false)
  }

  function NewUser(t: Table, cfg: Config): User {
    User(NewProfile(cfg), NoRights(t.bits))
  }

  // ------------------------------------------------------------------------- the rules

  datatype Rule =
    | On | Off | SkipSanitize | Sanitize
    | AllKeys | ResetKeys | AllChannels | ResetChannels
    | AllCommands | NoCommands
    | NoPass | ResetPass | AddPassword(clear: string) | AddHash(hash: string)
    | DelPassword(clear: string) | DelHash(hash: string)
    | Key(pattern: string) | Channel(pattern: string)
    | Allow(name: string) | AllowSub(name: string, sub: string) | Deny(name: string)
    | Category(on: bool, name: string)
    | Reset | Nothing | Unknown

  datatype Error = NoEntry | Invalid | KeysExist | ChannelsExist | NoPassword | BadHash

  datatype Outcome<+T> = Ok(value: T) | Err(error: Error)

  predicate HexDigit(c: char) {
    'a' <= c <= 'f' || '0' <= c <= '9'
  }

  const HASH_LEN := 64

  predicate HashOk(h: string) {
    |h| == HASH_LEN && forall i :: 0 <= i < |h| ==> HexDigit(h[i])
  }

  predicate Space(c: char) {
    c == ' ' || '\t' <= c <= '\r' || c == '\0'
  }

  predicate HasSpaces(s: string) {
    exists i :: 0 <= i < |s| && Space(s[i])
  }

  // Append unless present.
  function Add(s: seq<string>, x: string): seq<string> {
    if x in s then s else s + [x]
  }

  // Without the first occurrence of x.
  function Remove(s: seq<string>, x: string): seq<string> {
    if s == [] then [] else if s[0] == x then s[1..] else [s[0]] + Remove(s[1..], x)
  }

  // Give one command a bit of its own; its subcommands are forgotten.
  function SetCommand(w: Rights, id: nat, v: bool): Rights {
    if id < |w.bits| then Rights(w.bits[id := v], w.subs - {id}, w.all && v)
    else w.(subs := w.subs - {id})
  }

  // Is some entry the same up to case?
  predicate Listed(subs: seq<string>, sub: string) {
    exists i :: 0 <= i < |subs| && Lower(subs[i]) == Lower(sub)
  }

  function SubsOf(w: Rights, id: nat): seq<string> {
    if id in w.subs then w.subs[id] else []
  }

  function AddSub(w: Rights, id: nat, sub: string): Rights {
    if Listed(SubsOf(w, id), sub) then w else w.(subs := w.subs[id := SubsOf(w, id) + [sub]])
  }

  // Give every command of a category, except those of modules, the same bit.
  function SetCategory(cs: seq<Command>, w: Rights, cat: nat, v: bool): Rights {
    if cs == [] then w
    else
      var w1 := SetCategory(cs[..|cs| - 1], w, cat, v);
      var c := cs[|cs| - 1];
      if !c.isModule && cat in c.cats then SetCommand(w1, c.id, v) else w1
  }

  function ApplyToRights(t: Table, w: Rights, r: Rule): Outcome<Rights> {
    match r
    case AllCommands => Ok(Rights(AllBits(|w.bits|, true), map[], true))
    case NoCommands => Ok(NoRights(|w.bits|))
    case Allow(name) =>
      (match Find(t.commands, name)
       case None => Err(NoEntry)
       case Some(c) => Ok(SetCommand(w, c.id, true)))
    case Deny(name) =>
      (match Find(t.commands, name)
       case None => Err(NoEntry)
       case Some(c) => Ok(SetCommand(w, c.id, false)))
    case AllowSub(name, sub) =>
      (match Find(t.commands, name)
       case None => Err(NoEntry)
       case Some(c) =>
         if sub == "" then Err(Invalid)
         else if c.id < |w.bits| && w.bits[c.id] then Ok(w)
         else Ok(AddSub(w, c.id, sub)))
    case Category(on, name) =>
      (match FindCategory(t.categories, name, 0)
       case None => Err(NoEntry)
       case Some(i) => Ok(SetCategory(t.commands, w, i, on)))
    case Reset => Ok(NoRights(|w.bits|))
    case _ => Ok(w)
  }

  function ApplyToProfile(cfg: Config, p: Profile, r: Rule): Outcome<Profile> {
    match r
    case On => Ok(p.(enabled := true, disabled := false))
    case Off => Ok(p.(disabled := true, enabled := false))
    case SkipSanitize => Ok(p.(sanitizeSkip := true, sanitize := false))
    case Sanitize => Ok(p.(sanitizeSkip := false, sanitize := true))
    case AllKeys => Ok(p.(allkeys := true, patterns := []))
    case ResetKeys => Ok(p.(allkeys := false, patterns := []))
    case AllChannels => Ok(p.(allchannels := true, channels := []))
    case ResetChannels => Ok(p.(allchannels := false, channels := []))
    case NoPass => Ok(p.(nopass := true, passwords := []))
    case ResetPass => Ok(p.(nopass := false, passwords := []))
    case AddPassword(clear) => Ok(p.(passwords := Add(p.passwords, cfg.hash(clear)), nopass := false))
    case AddHash(h) =>
      if HashOk(h) then Ok(p.(passwords := Add(p.passwords, h), nopass := false)) else Err(BadHash)
    case DelPassword(clear) =>
      if cfg.hash(clear) in p.passwords then Ok(p.(passwords := Remove(p.passwords, cfg.hash(clear))))
      else Err(NoPassword)
    case DelHash(h) =>
      if !HashOk(h) then Err(BadHash)
      else if h in p.passwords then Ok(p.(passwords := Remove(p.passwords, h)))
      else Err(NoPassword)
    case Key(pat) =>
      if p.allkeys then Err(KeysExist) else if HasSpaces(pat) then Err(Invalid)
      else Ok(p.(patterns := Add(p.patterns, pat)))
    case Channel(pat) =>
      if p.allchannels then Err(ChannelsExist) else if HasSpaces(pat) then Err(Invalid)
      else Ok(p.(channels := Add(p.channels, pat)))
    case Reset =>
      Ok(NewProfile(cfg).(sanitize := true))
    case Unknown => Err(Invalid)
    case _ => Ok(p)
  }

  predicate OnRights(r: Rule) {
    r.AllCommands? || r.NoCommands? || r.Allow? || r.AllowSub? || r.Deny? || r.Category?
  }

  function Apply(t: Table, cfg: Config, u: User, r: Rule): Outcome<User> {
    match ApplyToProfile(cfg, u.profile, r)
    case Err(e) => Err(e)
    case Ok(p) =>
      match ApplyToRights(t, u.rights, r)
      case Err(e) => Err(e)
      case Ok(w) => Ok(User(p, w))
  }

  function ApplyAll(t: Table, cfg: Config, u: User, rs: seq<Rule>): Outcome<User> {
    if rs == [] then Ok(u)
    else
      match ApplyAll(t, cfg, u, rs[..|rs| - 1])
      case Ok(u1) => Apply(t, cfg, u1, rs[|rs| - 1])
      case Err(e) => Err(e)
  }

  lemma {:induction false} ApplyConcat(t: Table, cfg: Config, u: User, a: seq<Rule>, b: seq<Rule>, v: User)
    requires ApplyAll(t, cfg, u, a) == Ok(v)
    ensures ApplyAll(t, cfg, u, a + b) == ApplyAll(t, cfg, v, b)
    decreases |b|
  {
    hide Apply;
    if b == [] {
      assert a + b == a;
    } else {
      assert (a + b)[..|a + b| - 1] == a + b[..|b| - 1];
      ApplyConcat(t, cfg, u, a, b[..|b| - 1], v);
    }
  }

  lemma OneRule(t: Table, cfg: Config, u: User, r: Rule)
    ensures ApplyAll(t, cfg, u, [r]) == Apply(t, cfg, u, r)
  {
    hide Apply;
    assert [r][..0] == [];
  }

  lemma TwoRules(t: Table, cfg: Config, u: User, r: Rule, s: Rule, v: User)
    requires Apply(t, cfg, u, r) == Ok(v)
    ensures ApplyAll(t, cfg, u, [r, s]) == Apply(t, cfg, v, s)
  {
    hide Apply, ApplyAll;
    OneRule(t, cfg, u, r);
    ApplyConcat(t, cfg, u, [r], [s], v);
    OneRule(t, cfg, v, s);
    assert [r] + [s] == [r, s];
  }

  // ---------------------------------------------------- what every reachable user keeps

  ghost predicate IsId(t: Table, id: nat) {
    exists i :: 0 <= i < |t.commands| && t.commands[i].id == id
  }

  ghost predicate Distinct(s: seq<string>) {
    forall i, j :: 0 <= i < j < |s| ==> s[i] != s[j]
  }

  ghost predicate PatternsOk(s: seq<string>) {
    Distinct(s) && forall i :: 0 <= i < |s| ==> s[i] != "*" && !HasSpaces(s[i])
  }

  ghost predicate PasswordsOk(s: seq<string>) {
    Distinct(s) && forall i :: 0 <= i < |s| ==> HashOk(s[i])
  }

  ghost predicate ProfileOk(p: Profile) {
    && p.enabled != p.disabled
    && !(p.sanitize && p.sanitizeSkip)
    && (p.nopass ==> p.passwords == [])
    && (p.allkeys ==> p.patterns == [])
    && (p.allchannels ==> p.channels == [])
    && PasswordsOk(p.passwords)
    && PatternsOk(p.patterns)
    && PatternsOk(p.channels)
  }

  // Bits that belong to no command agree with the bit for commands to come.
  ghost predicate BitsOk(t: Table, bits: seq<bool>) {
    && 0 < |bits| == t.bits
    && forall j :: 0 <= j < |bits| && bits[j] != bits[|bits| - 1] ==> IsId(t, j)
  }

  ghost predicate SubListOk(s: seq<string>) {
    && s != []
    && (forall i :: 0 <= i < |s| ==> s[i] != "")
    && (forall i, j :: 0 <= i < j < |s| ==> Lower(s[i]) != Lower(s[j]))
  }

  // Subcommands are listed, without repetition, only for commands that are denied as a whole.
  ghost predicate SubsOk(t: Table, w: Rights) {
    forall id :: id in w.subs ==> id < |w.bits| && !w.bits[id] && IsId(t, id) && SubListOk(w.subs[id])
  }

  ghost predicate RightsOk(t: Table, w: Rights) {
    BitsOk(t, w.bits) && SubsOk(t, w)
  }

  ghost predicate Valid(t: Table, u: User) {
    ProfileOk(u.profile) && RightsOk(t, u.rights)
  }

  ghost predicate ConfigOk(cfg: Config) {
    forall s :: HashOk(cfg.hash(s))
  }

  // The rules that text can express: a lone star is not a pattern.
  predicate RuleOk(r: Rule) {
    (r.Key? || r.Channel?) ==> r.pattern != "*"
  }

  lemma SetCommandOk(t: Table, w: Rights, id: nat, v: bool)
    requires TableOk(t) && RightsOk(t, w) && IsId(t, id)
    ensures RightsOk(t, SetCommand(w, id, v))
  {
    var i :| 0 <= i < |t.commands| && t.commands[i].id == id;
    var w1 := SetCommand(w, id, v);
    assert w1.bits[|w1.bits| - 1] == w.bits[|w.bits| - 1];
    forall j | 0 <= j < |w1.bits| && w1.bits[j] != w1.bits[|w1.bits| - 1]
      ensures IsId(t, j)
    {
      assert j != id ==> w.bits[j] == w1.bits[j];
    }
    forall k | k in w1.subs
      ensures k < |w1.bits| && !w1.bits[k] && IsId(t, k) && SubListOk(w1.subs[k])
    {
      assert k in w.subs && k != id && w1.subs[k] == w.subs[k];
    }
  }

  lemma AddedSubListOk(s: seq<string>, sub: string)
    requires (s == [] || SubListOk(s)) && !Listed(s, sub) && sub != ""
    ensures SubListOk(s + [sub])
  {
    var s1 := s + [sub];
    forall i, j | 0 <= i < j < |s1| ensures Lower(s1[i]) != Lower(s1[j]) {
      assert s[i] == s1[i];
    }
  }

  lemma AddSubOk(t: Table, w: Rights, id: nat, sub: string)
    requires RightsOk(t, w) && IsId(t, id) && id < |w.bits| && !w.bits[id] && sub != ""
    ensures RightsOk(t, AddSub(w, id, sub))
  {
    hide IsId, SubListOk, Listed, Lower;
    if !Listed(SubsOf(w, id), sub) {
      AddedSubListOk(SubsOf(w, id), sub);
    }
  }

  lemma {:induction false} SetCategoryOk(t: Table, n: nat, w: Rights, cat: nat, v: bool)
    requires TableOk(t) && RightsOk(t, w) && n <= |t.commands|
    ensures RightsOk(t, SetCategory(t.commands[..n], w, cat, v))
  {
    hide RightsOk, SetCommand, TableOk;
    if n == 0 {
      assert t.commands[..n] == [];
    } else {
      assert t.commands[..n][..n - 1] == t.commands[..n - 1];
      SetCategoryOk(t, n - 1, w, cat, v);
      var c := t.commands[n - 1];
      assert t.commands[..n][n - 1] == c;
      assert IsId(t, c.id);
      SetCommandOk(t, SetCategory(t.commands[..n - 1], w, cat, v), c.id, v);
    }
  }

  lemma {:induction false} RemoveFacts(s: seq<string>, x: string)
    ensures |Remove(s, x)| <= |s|
    ensures forall y :: y in Remove(s, x) ==> y in s
    ensures Distinct(s) ==> Distinct(Remove(s, x))
  {
    if s != [] && s[0] != x {
      RemoveFacts(s[1..], x);
      if Distinct(s) {
        assert forall i :: 0 <= i < |s[1..]| ==> s[1..][i] == s[i + 1];
        assert s[0] !in s[1..];
      }
    }
  }

  lemma FindIsId(t: Table, c: Command)
    requires TableOk(t) && c in t.commands
    ensures IsId(t, c.id) && c.id < t.bits
  {
    var i :| 0 <= i < |t.commands| && t.commands[i] == c;
  }

  lemma RightsKept(t: Table, w: Rights, r: Rule)
    requires TableOk(t) && RightsOk(t, w) && ApplyToRights(t, w, r).Ok?
    ensures RightsOk(t, ApplyToRights(t, w, r).value)
  {
    hide SetCommand, AddSub, SetCategory, IsId, TableOk;
    match r
    case Allow(name) => var c := Find(t.commands, name).value; FindIsId(t, c); SetCommandOk(t, w, c.id, true);
    case Deny(name) => var c := Find(t.commands, name).value; FindIsId(t, c); SetCommandOk(t, w, c.id, false);
    case AllowSub(name, sub) =>
      var c := Find(t.commands, name).value;
      FindIsId(t, c);
      if !w.bits[c.id] { AddSubOk(t, w, c.id, sub); }
    case Category(on, name) =>
      assert t.commands[..|t.commands|] == t.commands;
      SetCategoryOk(t, |t.commands|, w, FindCategory(t.categories, name, 0).value, on);
    case _ =>
  }

  lemma AddKeepsPatterns(s: seq<string>, x: string)
    requires PatternsOk(s) && x != "*" && !HasSpaces(x)
    ensures PatternsOk(Add(s, x))
  {
    hide HasSpaces;
  }

  lemma AddKeepsPasswords(s: seq<string>, x: string)
    requires PasswordsOk(s) && HashOk(x)
    ensures PasswordsOk(Add(s, x))
  {
    hide HashOk;
  }

  lemma RemoveKeepsPasswords(s: seq<string>, x: string)
    requires PasswordsOk(s)
    ensures PasswordsOk(Remove(s, x)) && (s == [] ==> Remove(s, x) == [])
  {
    hide HashOk;
    RemoveFacts(s, x);
    var s1 := Remove(s, x);
    forall i | 0 <= i < |s1| ensures HashOk(s1[i]) {
      assert s1[i] in s;
    }
  }

  lemma ProfileKept(cfg: Config, p: Profile, r: Rule)
    requires ConfigOk(cfg) && ProfileOk(p) && RuleOk(r) && ApplyToProfile(cfg, p, r).Ok?
    ensures ProfileOk(ApplyToProfile(cfg, p, r).value)
  {
    hide PatternsOk, PasswordsOk, HashOk, HasSpaces, Add, Remove;
    NothingOk();
    match r
    case AddPassword(clear) => AddKeepsPasswords(p.passwords, cfg.hash(clear));
    case AddHash(h) => AddKeepsPasswords(p.passwords, h);
    case DelPassword(clear) => RemoveKeepsPasswords(p.passwords, cfg.hash(clear));
    case DelHash(h) => RemoveKeepsPasswords(p.passwords, h);
    case Key(pat) => AddKeepsPatterns(p.patterns, pat);
    case Channel(pat) => AddKeepsPatterns(p.channels, pat);
    case _ =>
  }

  lemma NothingOk()
    ensures PatternsOk([]) && PasswordsOk([])
  {
  }

  /** Every rule that is accepted keeps what the printer relies on. */
  lemma ApplyKeeps(t: Table, cfg: Config, u: User, r: Rule)
    requires TableOk(t) && ConfigOk(cfg) && Valid(t, u) && RuleOk(r) && Apply(t, cfg, u, r).Ok?
    ensures Valid(t, Apply(t, cfg, u, r).value)
  {
    hide ProfileOk, RightsOk, ApplyToProfile, ApplyToRights, RuleOk;
    ProfileKept(cfg, u.profile, r);
    RightsKept(t, u.rights, r);
  }

  // -------------------------------------------------------------------- rules as text

  // Rules written as one fixed word.
  predicate PlainWord(r: Rule) {
    r.On? || r.Off? || r.SkipSanitize? || r.Sanitize? || r.AllKeys? || r.ResetKeys? || r.AllChannels?
    || r.ResetChannels? || r.AllCommands? || r.NoCommands? || r.NoPass? || r.ResetPass?
  }

  function Keyword(word: string): (r: Option<Rule>)
    ensures r.Some? ==> PlainWord(r.value)
  {
    match word
    case "on" => Some(On)
    case "off" => Some(Off)
    case "skip-sanitize-payload" => Some(SkipSanitize)
    case "sanitize-payload" => Some(Sanitize)
    case "allkeys" => Some(AllKeys)
    case "~*" => Some(AllKeys)
    case "resetkeys" => Some(ResetKeys)
    case "allchannels" => Some(AllChannels)
    case "&*" => Some(AllChannels)
    case "resetchannels" => Some(ResetChannels)
    case "allcommands" => Some(AllCommands)
    case "+@all" => Some(AllCommands)
    case "nocommands" => Some(NoCommands)
    case "-@all" => Some(NoCommands)
    case "nopass" => Some(NoPass)
    case "resetpass" => Some(ResetPass)
    case _ => None
  }

  // The position of the first bar, or the length.
  function Bar(s: string): (n: nat)
    ensures n <= |s| && '|' !in s[..n] && (n < |s| ==> s[n] == '|')
  {
    if s == [] || s[0] == '|' then 0 else 1 + Bar(s[1..])
  }

  function ParsePlus(rest: string): Rule {
    var n := Bar(rest);
    if n == |rest| then Allow(rest) else AllowSub(rest[..n], rest[n + 1..])
  }

  function ParsePrefixed(op: string): Rule
    requires op != ""
  {
    var rest := op[1..];
    if op[0] == '>' then AddPassword(rest)
    else if op[0] == '#' then AddHash(rest)
    else if op[0] == '<' then DelPassword(rest)
    else if op[0] == '!' then DelHash(rest)
    else if op[0] == '~' then Key(rest)
    else if op[0] == '&' then Channel(rest)
    else if op[0] == '+' || op[0] == '-' then
      if rest != "" && rest[0] == '@' then Category(op[0] == '+', rest[1..])
      else if op[0] == '+' then ParsePlus(rest)
      else Deny(rest)
    else if Lower(op) == "reset" then Reset
    else Unknown
  }

  function Parse(op: string): Rule {
    if op == "" then Nothing
    else
      match Keyword(Lower(op))
      case Some(r) => r
      case None => ParsePrefixed(op)
  }

  lemma LowerSplit(a: string, b: string)
    ensures Lower(a + b) == Lower(a) + Lower(b)
  {
  }

  // A keyword that starts with a sign is one of four.
  lemma KeywordSigns(word: string)
    requires Keyword(word).Some? && word != ""
    ensures 'a' <= word[0] <= 'z' || word == "~*" || word == "&*" || word == "+@all" || word == "-@all"
  {
  }

  lemma LoneStar(s: string)
    requires Lower(s) == "*"
    ensures s == "*"
  {
    assert s[0] == '*' by { assert Lower(s)[0] == '*'; }
  }

  // Text that starts with a sign and is no keyword is taken apart by that sign.
  lemma ParseSigned(sign: char, rest: string)
    requires sign in "~&+-><#!"
    requires sign in "~&" ==> rest != "*"
    requires sign in "+-" ==> Lower(rest) != "@all"
    ensures Parse([sign] + rest) == ParsePrefixed([sign] + rest)
  {
    hide Keyword, ParsePrefixed;
    var op := [sign] + rest;
    LowerSplit([sign], rest);
    assert Lower([sign]) == [sign];
    var word := Lower(op);
    assert word[0] == sign && word[1..] == Lower(rest);
    SignedWords(word);
    if Lower(rest) == "*" { LoneStar(rest); }
  }

  lemma SignedWords(word: string)
    requires word != "" && word[0] in "~&+-><#!"
    ensures Keyword(word).Some? ==> if word[0] in "~&" then word[1..] == "*" else word[0] in "+-" && word[1..] == "@all"
  {
    if Keyword(word).Some? { KeywordSigns(word); }
  }

  lemma ParseOk(op: string)
    ensures RuleOk(Parse(op))
  {
    hide Keyword;
    assert Keyword("~*") == Some(AllKeys) && Keyword("&*") == Some(AllChannels) by { StarWords(); }
    if op != "" && op[0] in "~&" && op[1..] == "*" {
      assert op == if op[0] == '~' then "~*" else "&*";
      assert Lower(op) == op;
    }
  }

  lemma StarWords()
    ensures Keyword("~*") == Some(AllKeys) && Keyword("&*") == Some(AllChannels)
  {
  }

  // The text of the rules that the printer uses.
  function Print(r: Rule): string {
    match r
    case On => "on"
    case Off => "off"
    case SkipSanitize => "skip-sanitize-payload"
    case Sanitize => "sanitize-payload"
    case AllKeys => "~*"
    case ResetKeys => "resetkeys"
    case AllChannels => "&*"
    case ResetChannels => "resetchannels"
    case AllCommands => "+@all"
    case NoCommands => "-@all"
    case NoPass => "nopass"
    case ResetPass => "resetpass"
    case AddPassword(clear) => ">" + clear
    case AddHash(h) => "#" + h
    case DelPassword(clear) => "<" + clear
    case DelHash(h) => "!" + h
    case Key(pat) => "~" + pat
    case Channel(pat) => "&" + pat
    case Allow(name) => "+" + name
    case AllowSub(name, sub) => "+" + name + "|" + sub
    case Deny(name) => "-" + name
    case Category(on, name) => (if on then "+@" else "-@") + name
    case Reset => "reset"
    case Nothing => ""
    case Unknown => "?"
  }

  // Rules whose text says the same again.
  predicate Printable(r: Rule) {
    match r
    case Key(pat) => pat != "*"
    case Channel(pat) => pat != "*"
    case Allow(name) => NameOk(name)
    case AllowSub(name, sub) => NameOk(name)
    case Deny(name) => NameOk(name)
    case Category(on, name) => Lower(name) != "all"
    case _ => true
  }

  lemma PlainWords(r: Rule)
    requires PlainWord(r)
    ensures Parse(Print(r)) == r
  {
    LowerPlain(r);
    KeywordPlain(r);
    hide Keyword, Lower, ParsePrefixed;
  }

  lemma LowerPlain(r: Rule)
    requires PlainWord(r)
    ensures Print(r) != "" && Lower(Print(r)) == Print(r)
  {
  }

  lemma KeywordPlain(r: Rule)
    requires PlainWord(r)
    ensures Keyword(Print(r)) == Some(r)
  {
  }

  lemma OtherWords()
    ensures Parse("reset") == Reset && Parse("") == Nothing && Parse("?") == Unknown
  {
    assert Lower("reset") == "reset" && Lower("?") == "?";
  }

  lemma BarAfter(name: string, sub: string)
    requires '|' !in name
    ensures Bar(name) == |name| && Bar(name + "|" + sub) == |name|
  {
    BarFirst(name, |name|);
    assert (name + "|" + sub)[..|name|] == name;
    BarFirst(name + "|" + sub, |name|);
  }

  lemma {:induction false} BarFirst(s: string, n: nat)
    requires n <= |s| && '|' !in s[..n] && (n < |s| ==> s[n] == '|')
    ensures Bar(s) == n
    decreases n
  {
    if n > 0 {
      assert s[..n][0] == s[0];
      assert s[1..][..n - 1] == s[..n][1..];
      BarFirst(s[1..], n - 1);
    }
  }

  lemma NotAllAfterAt(name: string)
    requires NameOk(name)
    ensures forall rest :: rest != "" && rest[0] == name[0] ==> Lower(rest) != "@all"
  {
    forall rest | rest != "" && rest[0] == name[0] ensures Lower(rest) != "@all" {
      assert Lower(rest)[0] == LowerChar(rest[0]);
    }
  }

  /** Reading a printed rule gives the rule. */
  lemma ParsePrint(r: Rule)
    requires Printable(r)
    ensures Parse(Print(r)) == r
  {
    hide Parse, Lower, Keyword, Bar;
    match r
    case AddPassword(clear) => ParseSigned('>', clear);
    case AddHash(h) => ParseSigned('#', h);
    case DelPassword(clear) => ParseSigned('<', clear);
    case DelHash(h) => ParseSigned('!', h);
    case Key(pat) => ParseSigned('~', pat);
    case Channel(pat) => ParseSigned('&', pat);
    case Allow(name) => AllowText(name);
    case AllowSub(name, sub) => AllowSubText(name, sub);
    case Deny(name) => NotAllAfterAt(name); ParseSigned('-', name);
    case Category(on, name) => CategoryText(on, name);
    case Reset => OtherWords();
    case Nothing => OtherWords();
    case Unknown => OtherWords();
    case _ => PlainWords(r);
  }

  lemma AllowText(name: string)
    requires NameOk(name)
    ensures Parse(Print(Allow(name))) == Allow(name)
  {
    hide Parse, Keyword;
    NotAllAfterAt(name);
    ParseSigned('+', name);
    BarAfter(name, "");
    assert ("+" + name)[1..] == name;
  }

  lemma PlusText(name: string, sub: string)
    requires '|' !in name
    ensures ParsePlus(name + "|" + sub) == AllowSub(name, sub)
  {
    var rest := name + "|" + sub;
    BarAfter(name, sub);
    assert rest[..|name|] == name && rest[|name| + 1..] == sub;
  }

  lemma AllowSubText(name: string, sub: string)
    requires NameOk(name)
    ensures Parse(Print(AllowSub(name, sub))) == AllowSub(name, sub)
  {
    hide Parse, Keyword, ParsePlus, Lower, Bar;
    NotAllAfterAt(name);
    var rest := name + "|" + sub;
    assert Print(AllowSub(name, sub)) == ['+'] + rest;
    assert rest[0] == name[0];
    ParseSigned('+', rest);
    PlusText(name, sub);
    assert (['+'] + rest)[1..] == rest;
  }

  lemma NotAll(name: string)
    requires Lower(name) != "all"
    ensures Lower("@" + name) != "@all"
  {
    LowerSplit("@", name);
    assert Lower("@" + name)[1..] == Lower(name);
    assert "@all"[1..] == "all";
  }

  lemma AtSign(on: bool, name: string)
    ensures ParsePrefixed((if on then "+@" else "-@") + name) == Category(on, name)
  {
    hide Lower, ParsePlus;
    var op := (if on then "+@" else "-@") + name;
    assert op[1..][1..] == name;
  }

  lemma CategoryText(on: bool, name: string)
    requires Lower(name) != "all"
    ensures Parse(Print(Category(on, name))) == Category(on, name)
  {
    hide Parse, Keyword, Lower, ParsePrefixed;
    var sign := if on then '+' else '-';
    NotAll(name);
    ParseSigned(sign, "@" + name);
    AtSign(on, name);
    assert (if on then "+@" else "-@") + name == [sign] + ("@" + name);
  }
}
