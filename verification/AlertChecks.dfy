/**
 What one evaluation checks: the rules in force on each site and on the server, measured on the samples
 and on the traffic windows kept per subject. With settings as they are validated no key is checked twice.
 */
module AlertChecks {
  import opened Basics
  import opened AlertState
  import opened AlertModel
  import Traffic = TrafficWindow

  /** A rule as it is set. */
  datatype Setting = Setting(rule: Rule, disabled: bool)

  /** A site, or one of its slots, with its own rules. */
  datatype Site = Site(id: string, slot: string, optedOut: bool, own: seq<Setting>)

  datatype Sample = Sample(site: Site, hold: bool, counters: Traffic.Counters)

  datatype Settings = Settings(enabled: bool, recovery: Time, siteRules: seq<Setting>, serverRules: seq<Setting>)

  /** What is measured: whether a rule suits a site, and what it finds there, on a traffic window, or on the server. */
  datatype Measures = Measures(applies: (Rule, Site) -> bool,
                               onSite: (Rule, Sample, seq<Traffic.Counters>) -> Observation,
                               onServer: Rule -> Observation)

  // ---- the rules in force on a site

  function RuleKey(s: Setting): string {
    Lower(s.rule.id)
  }

  function RuleKeys(rules: seq<Setting>): set<string> {
    set s | s in rules :: RuleKey(s)
  }

  /** No two rules of a list share an id, whatever the case of its letters. */
  ghost predicate DistinctIds(rules: seq<Setting>) {
    forall i, j :: 0 <= i < j < |rules| ==> RuleKey(rules[i]) != RuleKey(rules[j])
  }

  /** A site's own rule of that id; a later one wins. */
  function OwnRule(own: seq<Setting>, id: string): Option<Setting> {
    if own == [] then None
    else if RuleKey(own[|own| - 1]) == id then Some(own[|own| - 1])
    else OwnRule(own[..|own| - 1], id)
  }

  function Kept(s: Setting, site: Site, ms: Measures): seq<Rule> {
    if !s.disabled && ms.applies(s.rule, site) then [s.rule] else []
  }

  /** The rules that hold on all sites, with the site's own in place of those it redefines. */
  function Overridden(defaults: seq<Setting>, site: Site, ms: Measures): seq<Rule> {
    if defaults == [] then []
    else
      var d := defaults[|defaults| - 1];
      var o := OwnRule(site.own, RuleKey(d));
      Overridden(defaults[..|defaults| - 1], site, ms) + Kept(if o.Some? then o.value else d, site, ms)
  }

  /** The site's rules that replace none. */
  function Added(own: seq<Setting>, replaced: set<string>, site: Site, ms: Measures): seq<Rule> {
    if own == [] then []
    else
      var o := own[|own| - 1];
      Added(own[..|own| - 1], replaced, site, ms) + if RuleKey(o) in replaced then [] else Kept(o, site, ms)
  }

  function Effective(defaults: seq<Setting>, site: Site, ms: Measures): seq<Rule> {
    if site.optedOut then []
    else Overridden(defaults, site, ms) + Added(site.own, RuleKeys(defaults), site, ms)
  }

  method OwnRules(rules: seq<Setting>) returns (own: map<string, Setting>)
    ensures forall id :: Get(own, id) == OwnRule(rules, id)
  {
    hide RuleKey;
    own := map[];
    for i := 0 to |rules|
      invariant forall id :: Get(own, id) == OwnRule(rules[..i], id)
    {
      assert rules[..i + 1][..i] == rules[..i];
      own := own[RuleKey(rules[i]) := rules[i]];
    }
    assert rules[..|rules|] == rules;
  }

  method EffectiveRules(defaults: seq<Setting>, site: Site, ms: Measures) returns (out: seq<Rule>)
    ensures out == Effective(defaults, site, ms)
  {
    hide RuleKey, Kept;
    if site.optedOut {
      return [];
    }
    var own := OwnRules(site.own);
    var seen;
    out, seen := ReplaceDefaults(defaults, own, site, ms);
    ghost var replaced := out;
    for i := 0 to |site.own|
      invariant out == replaced + Added(site.own[..i], seen, site, ms)
    {
      assert site.own[..i + 1][..i] == site.own[..i];
      if RuleKey(site.own[i]) !in seen {
        out := out + Kept(site.own[i], site, ms);
      }
    }
    assert site.own[..|site.own|] == site.own;
  }

  method ReplaceDefaults(defaults: seq<Setting>, own: map<string, Setting>, site: Site, ms: Measures)
    returns (out: seq<Rule>, seen: set<string>)
    requires forall id :: Get(own, id) == OwnRule(site.own, id)
    ensures out == Overridden(defaults, site, ms) && seen == RuleKeys(defaults)
  {
    hide RuleKey, Kept, OwnRule;
    out, seen := [], {};
    for i := 0 to |defaults|
      invariant out == Overridden(defaults[..i], site, ms) && seen == RuleKeys(defaults[..i])
    {
      var d := defaults[i];
      assert defaults[..i + 1][..i] == defaults[..i] && defaults[..i + 1] == defaults[..i] + [d];
      seen := seen + {RuleKey(d)};
      var o := Get(own, RuleKey(d));
      assert o == OwnRule(site.own, RuleKey(d));
      out := out + Kept(if o.Some? then o.value else d, site, ms);
    }
    assert defaults[..|defaults|] == defaults;
  }

  /** A setting that counts on a site: one of its own, or a server-wide one it has none of the same id for. */
  ghost predicate InForce(s: Setting, defaults: seq<Setting>, site: Site) {
    s in site.own || (s in defaults && RuleKey(s) !in RuleKeys(site.own))
  }

  lemma {:induction false} OwnRuleIs(own: seq<Setting>, id: string)
    requires DistinctIds(own)
    ensures forall s :: s in own && RuleKey(s) == id <==> OwnRule(own, id) == Some(s)
  {
    hide RuleKey;
    if own != [] {
      var before, last := own[..|own| - 1], own[|own| - 1];
      assert own == before + [last];
      OwnRuleIs(before, id);
    }
  }

  lemma {:induction false} OverriddenIs(defaults: seq<Setting>, site: Site, ms: Measures, r: Rule)
    requires DistinctIds(site.own)
    ensures r in Overridden(defaults, site, ms) <==>
            exists s :: InForce(s, defaults, site) && RuleKey(s) in RuleKeys(defaults) && r in Kept(s, site, ms)
  {
    hide RuleKey, Kept;
    if defaults != [] {
      var before, d := defaults[..|defaults| - 1], defaults[|defaults| - 1];
      assert defaults == before + [d];
      OverriddenIs(before, site, ms, r);
      OwnRuleIs(site.own, RuleKey(d));
      var o := OwnRule(site.own, RuleKey(d));
      var s' := if o.Some? then o.value else d;
      assert InForce(s', defaults, site) && RuleKey(s') == RuleKey(d);
      if r in Overridden(before, site, ms) {
        var s :| InForce(s, before, site) && RuleKey(s) in RuleKeys(before) && r in Kept(s, site, ms);
        assert InForce(s, defaults, site) && RuleKey(s) in RuleKeys(defaults);
      }
      forall s | InForce(s, defaults, site) && RuleKey(s) in RuleKeys(defaults) && r in Kept(s, site, ms)
        ensures r in Overridden(defaults, site, ms)
      {
        if s != s' {
          assert RuleKey(s) in RuleKeys(before) && InForce(s, before, site);
        }
      }
    }
  }

  lemma {:induction false} AddedIs(own: seq<Setting>, replaced: set<string>, site: Site, ms: Measures, r: Rule)
    ensures r in Added(own, replaced, site, ms) <==>
              exists s :: s in own && RuleKey(s) !in replaced && r in Kept(s, site, ms)
  {
    hide RuleKey, Kept;
    if own != [] {
      AddedIs(own[..|own| - 1], replaced, site, ms, r);
      assert own == own[..|own| - 1] + [own[|own| - 1]];
    }
  }

  /**
   A rule is checked on a site exactly when the site takes part and a setting that counts there has it,
   turned on and suiting the site: the site's own settings come before the server-wide ones of the same id.
   */
  lemma EffectiveExactly(defaults: seq<Setting>, site: Site, ms: Measures, r: Rule)
    requires DistinctIds(site.own)
    ensures r in Effective(defaults, site, ms) <==>
            && !site.optedOut
            && exists s :: InForce(s, defaults, site) && s.rule == r && !s.disabled && ms.applies(r, site)
  {
    OverriddenIs(defaults, site, ms, r);
    AddedIs(site.own, RuleKeys(defaults), site, ms, r);
    hide RuleKey, Overridden, Added;
    forall s | InForce(s, defaults, site) && r in Kept(s, site, ms)
      ensures !site.optedOut ==> r in Effective(defaults, site, ms)
    {
      if RuleKey(s) !in RuleKeys(defaults) {
        assert s in site.own;
      }
    }
  }

  /** No two rules share an id, whatever the case of its letters. */
  ghost predicate DistinctRules(rules: seq<Rule>) {
    forall i, j :: 0 <= i < j < |rules| ==> Lower(rules[i].id) != Lower(rules[j].id)
  }

  lemma OneMoreDistinct(rules: seq<Rule>, s: Setting, site: Site, ms: Measures, ids: set<string>)
    requires DistinctRules(rules) && (forall r :: r in rules ==> Lower(r.id) in ids) && RuleKey(s) !in ids
    ensures DistinctRules(rules + Kept(s, site, ms))
    ensures forall r :: r in rules + Kept(s, site, ms) ==> Lower(r.id) in ids + {RuleKey(s)}
  {
    hide Lower;
  }

  lemma KeysOneMore(rules: seq<Setting>)
    requires rules != [] && DistinctIds(rules)
    ensures var before, last := rules[..|rules| - 1], rules[|rules| - 1];
            DistinctIds(before) && RuleKeys(rules) == RuleKeys(before) + {RuleKey(last)}
            && RuleKey(last) !in RuleKeys(before)
  {
    hide Lower;
    assert rules == rules[..|rules| - 1] + [rules[|rules| - 1]];
  }

  lemma {:induction false} OverriddenDistinct(defaults: seq<Setting>, site: Site, ms: Measures)
    requires DistinctIds(defaults) && DistinctIds(site.own)
    ensures DistinctRules(Overridden(defaults, site, ms))
    ensures forall r :: r in Overridden(defaults, site, ms) ==> Lower(r.id) in RuleKeys(defaults)
  {
    if defaults != [] {
      hide Lower, DistinctRules, RuleKeys, DistinctIds, RuleKey, Kept;
      var before, d := defaults[..|defaults| - 1], defaults[|defaults| - 1];
      KeysOneMore(defaults);
      OverriddenDistinct(before, site, ms);
      OwnRuleIs(site.own, RuleKey(d));
      var o := OwnRule(site.own, RuleKey(d));
      OneMoreDistinct(Overridden(before, site, ms), if o.Some? then o.value else d, site, ms, RuleKeys(before));
    }
  }

  lemma {:induction false} AddedDistinct(own: seq<Setting>, replaced: set<string>, site: Site, ms: Measures)
    requires DistinctIds(own)
    ensures DistinctRules(Added(own, replaced, site, ms))
    ensures forall r :: r in Added(own, replaced, site, ms) ==> Lower(r.id) in RuleKeys(own) - replaced
  {
    if own != [] {
      hide Lower, DistinctRules, RuleKeys, DistinctIds, RuleKey, Kept;
      var before, o := own[..|own| - 1], own[|own| - 1];
      KeysOneMore(own);
      AddedDistinct(before, replaced, site, ms);
      OneMoreDistinct(Added(before, replaced, site, ms), o, site, ms, RuleKeys(before) - replaced);
    }
  }

  lemma EffectiveDistinct(defaults: seq<Setting>, site: Site, ms: Measures)
    requires DistinctIds(defaults) && DistinctIds(site.own)
    ensures DistinctRules(Effective(defaults, site, ms))
  {
    hide Lower, Overridden, Added;
    OverriddenDistinct(defaults, site, ms);
    AddedDistinct(site.own, RuleKeys(defaults), site, ms);
  }

  // ---- traffic windows

  type Windows = map<string, seq<Traffic.Counters>>

  function Subject(s: Site): string {
    SlotKey(s.id, s.slot)
  }

  function WindowOf(ws: Windows, subject: string): seq<Traffic.Counters> {
    if subject in ws then ws[subject] else []
  }

  function Sampled(ws: Windows, s: Sample, now: Time): Windows {
    ws[Subject(s.site) := Traffic.Add(WindowOf(ws, Subject(s.site)), s.counters.(at := now))]
  }

  /** The windows once the samples are taken in. */
  function AllSampled(ws: Windows, samples: seq<Sample>, now: Time): Windows {
    if samples == [] then ws else Sampled(AllSampled(ws, samples[..|samples| - 1], now), samples[|samples| - 1], now)
  }

  /** The subjects sampled, and their sites. */
  function Live(samples: seq<Sample>): set<string> {
    (set s | s in samples :: Subject(s.site)) + set s | s in samples :: s.site.id
  }

  function NextWindows(ws: Windows, samples: seq<Sample>, now: Time): Windows {
    var all := AllSampled(ws, samples, now);
    map x | x in all && x in Live(samples) :: all[x]
  }

  // ---- the checks of an evaluation

  function SiteChecks(rules: seq<Rule>, s: Sample, buf: seq<Traffic.Counters>, ms: Measures): seq<Check> {
    seq(|rules|, i requires 0 <= i < |rules| =>
          Check(rules[i], s.site.id, s.site.slot, s.hold, ms.onSite(rules[i], s, buf)))
  }

  function AllSiteChecks(cfg: Settings, samples: seq<Sample>, ws: Windows, now: Time, ms: Measures): seq<Check> {
    if samples == [] then []
    else
      var s := samples[|samples| - 1];
      AllSiteChecks(cfg, samples[..|samples| - 1], ws, now, ms)
      + SiteChecks(Effective(cfg.siteRules, s.site, ms), s, WindowOf(AllSampled(ws, samples, now), Subject(s.site)), ms)
  }

  function ServerChecks(rules: seq<Setting>, ms: Measures): seq<Check> {
    if rules == [] then []
    else
      var r := rules[|rules| - 1];
      ServerChecks(rules[..|rules| - 1], ms)
      + if r.disabled then [] else [Check(r.rule, "", "", false, ms.onServer(r.rule))]
  }

  function Checks(cfg: Settings, samples: seq<Sample>, ws: Windows, now: Time, ms: Measures): seq<Check> {
    if cfg.enabled then AllSiteChecks(cfg, samples, ws, now, ms) + ServerChecks(cfg.serverRules, ms) else []
  }

  // ---- no key twice

  /** Rules as validated when they are saved, and subjects with site ids as they are made, each sampled once. */
  ghost predicate Valid(cfg: Settings, samples: seq<Sample>) {
    && DistinctIds(cfg.siteRules) && DistinctIds(cfg.serverRules)
    && (forall s :: s in samples ==> DistinctIds(s.site.own) && s.site.id != "" && '@' !in s.site.id)
    && (forall i, j :: 0 <= i < j < |samples| ==>
          samples[i].site.id != samples[j].site.id || SlotName(samples[i].site.slot) != SlotName(samples[j].site.slot))
  }

  /** The production slot has two names. */
  function SlotName(slot: string): string {
    if slot == "production" then "" else slot
  }

  /** What follows a site's id in the key of a slot. */
  function SlotSuffix(slot: string): string {
    if SlotName(slot) == "" then "" else "@" + slot
  }

  lemma SlotKeyParts(id: string, slot: string)
    ensures SlotKey(id, slot) == id + SlotSuffix(slot)
  {
  }

  lemma SuffixInjective(slot: string, slot': string)
    requires SlotSuffix(slot) == SlotSuffix(slot')
    ensures SlotName(slot) == SlotName(slot')
  {
    assert SlotName(slot) != "" ==> SlotSuffix(slot)[1..] == slot;
    assert SlotName(slot') != "" ==> SlotSuffix(slot')[1..] == slot';
  }

  /** Where the separator first is tells where the id before it ends. */
  lemma PrefixUpToSeparator(a: string, rest: string, b: string, rest': string)
    requires '@' !in b && a + rest == b + rest' && (rest == "" || rest[0] == '@')
    ensures |b| <= |a|
  {
    assert forall i :: 0 <= i < |b| ==> (a + rest)[i] == b[i];
    assert rest != "" ==> (a + rest)[|a|] == '@';
  }

  /** The key of a site and slot belongs to no other. */
  lemma SlotKeyInjective(id: string, slot: string, id': string, slot': string)
    requires '@' !in id && '@' !in id' && SlotKey(id, slot) == SlotKey(id', slot')
    ensures id == id' && SlotName(slot) == SlotName(slot')
  {
    hide SlotKey, SlotName;
    SlotKeyParts(id, slot);
    SlotKeyParts(id', slot');
    PrefixUpToSeparator(id, SlotSuffix(slot), id', SlotSuffix(slot'));
    PrefixUpToSeparator(id', SlotSuffix(slot'), id, SlotSuffix(slot));
    var k := SlotKey(id, slot);
    assert k[..|id|] == id && k[..|id'|] == id' && k[|id|..] == SlotSuffix(slot) && k[|id'|..] == SlotSuffix(slot');
    SuffixInjective(slot, slot');
  }

  ghost predicate SubjectIn(c: Check, samples: seq<Sample>) {
    exists i :: 0 <= i < |samples| && CheckKey(c).subject == Subject(samples[i].site)
  }

  lemma SiteChecksDistinct(rules: seq<Rule>, s: Sample, buf: seq<Traffic.Counters>, ms: Measures)
    requires DistinctRules(rules)
    ensures DistinctKeys(SiteChecks(rules, s, buf, ms))
    ensures forall c :: c in SiteChecks(rules, s, buf, ms) ==> CheckKey(c).subject == Subject(s.site)
  {
    hide Lower, SlotKey;
  }

  lemma Together(a: seq<Check>, b: seq<Check>)
    requires DistinctKeys(a) && DistinctKeys(b)
    requires forall c, d :: c in a && d in b ==> CheckKey(c).subject != CheckKey(d).subject
    ensures DistinctKeys(a + b)
  {
    hide CheckKey;
    var all := a + b;
    forall i, j | 0 <= i < j < |all| ensures CheckKey(all[i]) != CheckKey(all[j]) {
      if i < |a| <= j {
        assert all[i] in a && all[j] in b;
      }
    }
  }

  lemma {:induction false} AllSiteChecksDistinct(cfg: Settings, samples: seq<Sample>, ws: Windows, now: Time,
                                                 ms: Measures)
    requires Valid(cfg, samples)
    ensures DistinctKeys(AllSiteChecks(cfg, samples, ws, now, ms))
    ensures forall c :: c in AllSiteChecks(cfg, samples, ws, now, ms) ==> SubjectIn(c, samples)
  {
    hide CheckKey, SlotKey, SiteChecks, DistinctIds, DistinctKeys, Effective, AllSampled, SlotName;
    NoChecks();
    if samples != [] {
      var before, s := samples[..|samples| - 1], samples[|samples| - 1];
      assert samples == before + [s] && s in samples;
      AllSiteChecksDistinct(cfg, before, ws, now, ms);
      EffectiveDistinct(cfg.siteRules, s.site, ms);
      var first := AllSiteChecks(cfg, before, ws, now, ms);
      var buf := WindowOf(AllSampled(ws, samples, now), Subject(s.site));
      SiteChecksDistinct(Effective(cfg.siteRules, s.site, ms), s, buf, ms);
      forall c | SubjectIn(c, before) ensures CheckKey(c).subject != Subject(s.site) && SubjectIn(c, samples) {
        var i :| 0 <= i < |before| && CheckKey(c).subject == Subject(before[i].site);
        assert samples[i] == before[i] && before[i] in samples;
        if Subject(before[i].site) == Subject(s.site) {
          SlotKeyInjective(before[i].site.id, before[i].site.slot, s.site.id, s.site.slot);
        }
      }
      var more := SiteChecks(Effective(cfg.siteRules, s.site, ms), s, buf, ms);
      Together(first, more);
      forall c | c in more ensures SubjectIn(c, samples) {
        assert CheckKey(c).subject == Subject(samples[|samples| - 1].site);
      }
    }
  }

  lemma {:induction false} ServerChecksDistinct(rules: seq<Setting>, ms: Measures)
    requires DistinctIds(rules)
    ensures DistinctKeys(ServerChecks(rules, ms))
    ensures forall c :: c in ServerChecks(rules, ms) ==>
              CheckKey(c).subject == "" && CheckKey(c).rule in RuleKeys(rules)
  {
    hide Lower;
    if rules != [] {
      var before, r := rules[..|rules| - 1], rules[|rules| - 1];
      assert rules == before + [r];
      ServerChecksDistinct(before, ms);
      assert RuleKey(r) !in RuleKeys(before);
    }
  }

  /** With settings as validated, an evaluation checks no key twice: ids, slots and overrides never collide. */
  lemma ChecksDistinct(cfg: Settings, samples: seq<Sample>, ws: Windows, now: Time, ms: Measures)
    requires Valid(cfg, samples)
    ensures DistinctKeys(Checks(cfg, samples, ws, now, ms))
  {
    hide AllSiteChecks, ServerChecks, CheckKey, DistinctIds, DistinctKeys;
    AllSiteChecksDistinct(cfg, samples, ws, now, ms);
    ServerChecksDistinct(cfg.serverRules, ms);
    forall c | SubjectIn(c, samples) ensures CheckKey(c).subject != "" {
      var i :| 0 <= i < |samples| && CheckKey(c).subject == Subject(samples[i].site);
      assert samples[i] in samples;
    }
    if cfg.enabled {
      Together(AllSiteChecks(cfg, samples, ws, now, ms), ServerChecks(cfg.serverRules, ms));
    } else {
      assert Checks(cfg, samples, ws, now, ms) == [];
      NoChecks();
    }
  }

  lemma NoChecks()
    ensures DistinctKeys([])
  {
  }

  // ---- windows over whole runs

  /** The samples of one evaluation. */
  datatype Round = Round(now: Time, samples: seq<Sample>)

  function WindowsRun(rounds: seq<Round>): Windows {
    if rounds == [] then map[]
    else
      var r := rounds[|rounds| - 1];
      NextWindows(WindowsRun(rounds[..|rounds| - 1]), r.samples, r.now)
  }

  /** The counters of one subject in an evaluation. */
  function CountersIn(samples: seq<Sample>, now: Time, x: string): seq<Traffic.Counters> {
    if samples == [] then []
    else
      var s := samples[|samples| - 1];
      CountersIn(samples[..|samples| - 1], now, x) + if Subject(s.site) == x then [s.counters.(at := now)] else []
  }

  /** All of a subject's counters since it was last gone. */
  function CountersOf(rounds: seq<Round>, x: string): seq<Traffic.Counters> {
    if rounds == [] then []
    else
      var r := rounds[|rounds| - 1];
      if x in Live(r.samples) then CountersOf(rounds[..|rounds| - 1], x) + CountersIn(r.samples, r.now, x) else []
  }

  lemma BufferOneMore(h: seq<Traffic.Counters>, c: Traffic.Counters)
    ensures Traffic.Buffer(h + [c]) == Traffic.Add(Traffic.Buffer(h), c)
  {
    assert (h + [c])[..|h|] == h;
  }

  lemma {:induction false} SampledIsBuffer(ws: Windows, samples: seq<Sample>, now: Time, x: string,
                                           h: seq<Traffic.Counters>)
    requires WindowOf(ws, x) == Traffic.Buffer(h)
    ensures WindowOf(AllSampled(ws, samples, now), x) == Traffic.Buffer(h + CountersIn(samples, now, x))
  {
    hide Traffic.Add, Traffic.Buffer, SlotKey;
    if samples == [] {
      assert h + CountersIn(samples, now, x) == h;
    } else {
      var before, s := samples[..|samples| - 1], samples[|samples| - 1];
      SampledIsBuffer(ws, before, now, x, h);
      var h1 := h + CountersIn(before, now, x);
      if Subject(s.site) == x {
        var c := s.counters.(at := now);
        BufferOneMore(h1, c);
        assert h + CountersIn(samples, now, x) == h1 + [c];
      } else {
        assert CountersIn(samples, now, x) == CountersIn(before, now, x);
      }
    }
  }

  /**
   After every sequence of evaluations the window kept for a site or a slot is the buffer of all its
   readings since it was last gone: what `TrafficWindow` proves of a buffer holds of the engine's.
   */
  lemma {:induction false} WindowsAreBuffers(rounds: seq<Round>, x: string)
    ensures WindowOf(WindowsRun(rounds), x) == Traffic.Buffer(CountersOf(rounds, x))
  {
    hide Live, AllSampled, CountersIn;
    if rounds != [] {
      var before, r := rounds[..|rounds| - 1], rounds[|rounds| - 1];
      WindowsAreBuffers(before, x);
      SampledIsBuffer(WindowsRun(before), r.samples, r.now, x, CountersOf(before, x));
    }
  }
}
