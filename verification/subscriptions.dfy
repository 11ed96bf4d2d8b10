/** Subscription selection of scripts/collect_market_replay.py:250-382 and its audit in scripts/replay_market.py:1020-1115. */
module Subscriptions {
  import opened Results
  import opened Sorting

  datatype Candidate = Candidate(code: string, lastSeen: int, hits: nat, sources: set<string>)

  // The frozen theme maps and the manager's settings. A set of theme ids is listed in its iteration order.
  datatype Config = Config(
    stockToThemes: map<string, seq<string>>, themeMembers: map<string, seq<string>>,
    maxSubscriptions: nat, ttl: int, minimumInterval: int)

  // One appearance of a stock as a member of an active candidate's theme, and its place in that theme's list.
  datatype Mention = Mention(code: string, order: nat)

  datatype Score = Score(count: nat, order: int)

  datatype Kind = DirectCandidate | ThemeExpansion | Unresolved

  // Why a target was chosen: its own candidate, or the active candidates that share themes with it.
  datatype Reason =
    | AsCandidate(sources: set<string>, hits: nat)
    | ThroughThemes(themeIds: set<string>, candidateCodes: set<string>)
    | Unexplained
  {
    function Kind(): Kind { if AsCandidate? then DirectCandidate else if ThroughThemes? then ThemeExpansion else Unresolved }
  }

  const PRIMARY_LIMIT: nat := 60
  const NO_ORDER := 1_000_000_000

  function Themes(cfg: Config, code: string): seq<string> { if code in cfg.stockToThemes then cfg.stockToThemes[code] else [] }

  function Members(cfg: Config, theme: string): seq<string> { if theme in cfg.themeMembers then cfg.themeMembers[theme] else [] }

  // ----- Freezing the theme files -----

  datatype ThemeFile = ThemeFile(themeId: string, codes: seq<string>)

  function AddTheme(stocks: map<string, seq<string>>, code: string, theme: string): map<string, seq<string>> {
    var known := if code in stocks then stocks[code] else [];
    stocks[code := if theme in known then known else known + [theme]]
  }

  // A member's stock knows every theme that lists it.
  ghost predicate Consistent(cfg: Config) {
    forall t, code | t in cfg.themeMembers && code in cfg.themeMembers[t] :: t in Themes(cfg, code)
  }

  /** However often a theme appears in the frozen files, the two maps agree. */
  method FreezeInfostock(files: seq<ThemeFile>, settings: Config) returns (cfg: Config)
    requires settings.stockToThemes == map[] && settings.themeMembers == map[]
    ensures Consistent(cfg) && cfg == settings.(stockToThemes := cfg.stockToThemes, themeMembers := cfg.themeMembers)
    ensures forall t :: t in cfg.themeMembers <==> t != "" && exists f :: f in files && f.themeId == t
  {
    cfg := settings;
    for i := 0 to |files|
      invariant Consistent(cfg) && cfg == settings.(stockToThemes := cfg.stockToThemes, themeMembers := cfg.themeMembers)
      invariant forall t :: t in cfg.themeMembers <==> t != "" && exists j :: 0 <= j < i && files[j].themeId == t
    {
      var theme, codes, stocks := files[i].themeId, files[i].codes, cfg.stockToThemes;
      ghost var before := cfg;
      for k := 0 to |codes|
        invariant forall code, t | t in Themes(before, code) :: code in stocks && t in stocks[code]
        invariant forall j | 0 <= j < k :: codes[j] in stocks && theme in stocks[codes[j]]
      {
        stocks := AddTheme(stocks, codes[k], theme);
      }
      cfg := cfg.(stockToThemes := stocks);
      if theme != "" { cfg := cfg.(themeMembers := cfg.themeMembers[theme := codes]); }
      forall t, code | t in cfg.themeMembers && code in cfg.themeMembers[t] ensures t in Themes(cfg, code) {
        if t != theme || theme == "" { assert t in Themes(before, code); }
      }
    }
  }

  // ----- The two rankings -----

  function Active(candidates: seq<Candidate>, now: int, ttl: int): seq<Candidate> {
    if candidates == [] then [] else
    var last := candidates[|candidates| - 1];
    if now - last.lastSeen <= ttl then Active(candidates[..|candidates| - 1], now, ttl) + [last]
    else Active(candidates[..|candidates| - 1], now, ttl)
  }

  // Latest seen first, then most hits, then code.
  predicate RankLe(a: Candidate, b: Candidate) {
    a.lastSeen > b.lastSeen || (a.lastSeen == b.lastSeen && (a.hits > b.hits || (a.hits == b.hits && StrLe(a.code, b.code))))
  }

  function Codes(candidates: seq<Candidate>): seq<string> { seq(|candidates|, i requires 0 <= i < |candidates| => candidates[i].code) }

  function Primary(active: seq<Candidate>, maximum: nat): seq<string> {
    var ranked, limit := Sort(active, RankLe), if maximum < PRIMARY_LIMIT then maximum else PRIMARY_LIMIT;
    Codes(ranked[..if |ranked| < limit then |ranked| else limit])
  }

  function MemberMentions(members: seq<string>): seq<Mention> { seq(|members|, i requires 0 <= i < |members| => Mention(members[i], i)) }

  function ThemeMentions(cfg: Config, themes: seq<string>): seq<Mention> {
    if themes == [] then []
    else ThemeMentions(cfg, themes[..|themes| - 1]) + MemberMentions(Members(cfg, themes[|themes| - 1]))
  }

  function Mentions(cfg: Config, active: seq<Candidate>): seq<Mention> {
    if active == [] then []
    else Mentions(cfg, active[..|active| - 1]) + ThemeMentions(cfg, Themes(cfg, active[|active| - 1].code))
  }

  function ScoreOf(scores: map<string, Score>, code: string): Score { if code in scores then scores[code] else Score(0, NO_ORDER) }

  function Credit(scores: map<string, Score>, m: Mention): map<string, Score> {
    var s := ScoreOf(scores, m.code);
    scores[m.code := Score(s.count + 1, if m.order < s.order then m.order else s.order)]
  }

  function Tally(mentions: seq<Mention>): map<string, Score> {
    if mentions == [] then map[] else Credit(Tally(mentions[..|mentions| - 1]), mentions[|mentions| - 1])
  }

  function AddNew(codes: seq<string>, code: string): seq<string> { if code in codes then codes else codes + [code] }

  // The distinct codes, in the order they first appear.
  function Dedupe(codes: seq<string>): seq<string> {
    if codes == [] then [] else AddNew(Dedupe(codes[..|codes| - 1]), codes[|codes| - 1])
  }

  function MentionedCodes(mentions: seq<Mention>): seq<string> {
    if mentions == [] then [] else AddNew(MentionedCodes(mentions[..|mentions| - 1]), mentions[|mentions| - 1].code)
  }

  // Most mentions first, then earliest place in a theme's list, then code.
  predicate RelatedLe(scores: map<string, Score>, a: string, b: string) {
    var x, y := ScoreOf(scores, a), ScoreOf(scores, b);
    x.count > y.count || (x.count == y.count && (x.order < y.order || (x.order == y.order && StrLe(a, b))))
  }

  function ByScore(scores: map<string, Score>): (string, string) -> bool { (a, b) => RelatedLe(scores, a, b) }

  function Related(mentions: seq<Mention>): seq<string> { Sort(MentionedCodes(mentions), ByScore(Tally(mentions))) }

  function Ranking(cfg: Config, candidates: seq<Candidate>, now: int): seq<string> {
    var active := Active(candidates, now, cfg.ttl);
    Dedupe(Primary(active, cfg.maxSubscriptions) + Related(Mentions(cfg, active)))
  }

  // The loop tests the bound after it appends, so a bound of zero still takes the first code.
  function Take(ranking: seq<string>, maximum: nat): seq<string> {
    var limit := if maximum == 0 then 1 else maximum;
    ranking[..if |ranking| < limit then |ranking| else limit]
  }

  function Keep(codes: seq<string>, wanted: seq<string>): seq<string> {
    if codes == [] then [] else
    var last := codes[|codes| - 1];
    if last in wanted then Keep(codes[..|codes| - 1], wanted) + [last] else Keep(codes[..|codes| - 1], wanted)
  }

  function Omit(codes: seq<string>, unwanted: seq<string>): seq<string> {
    if codes == [] then [] else
    var last := codes[|codes| - 1];
    if last in unwanted then Omit(codes[..|codes| - 1], unwanted) else Omit(codes[..|codes| - 1], unwanted) + [last]
  }

  function Stable(current: seq<string>, selected: seq<string>): seq<string> { Keep(current, selected) + Omit(selected, current) }

  function FreshTargets(cfg: Config, candidates: seq<Candidate>, current: seq<string>, now: int): seq<string> {
    Stable(current, Take(Ranking(cfg, candidates, now), cfg.maxSubscriptions))
  }

  // ----- The manager -----

  function IndexOfCode(candidates: seq<Candidate>, code: string): (k: nat)
    ensures k <= |candidates| && (k < |candidates| ==> candidates[k].code == code)
    ensures k == |candidates| ==> forall c | c in candidates :: c.code != code
  {
    if candidates == [] || candidates[0].code == code then 0 else 1 + IndexOfCode(candidates[1..], code)
  }

  function Observed(candidates: seq<Candidate>, code: string, source: string, now: int): seq<Candidate> {
    var k := IndexOfCode(candidates, code);
    if k == |candidates| then candidates + [Candidate(code, now, 1, {source})]
    else candidates[k := Candidate(code, now, candidates[k].hits + 1, candidates[k].sources + {source})]
  }

  function ActiveThemes(cfg: Config, active: seq<Candidate>): set<string> { set c, t | c in active && t in Themes(cfg, c.code) :: t }

  function CodesOfTheme(cfg: Config, active: seq<Candidate>, theme: string): set<string> {
    set c | c in active && theme in Themes(cfg, c.code) :: c.code
  }

  function ReasonOf(cfg: Config, candidates: seq<Candidate>, code: string, now: int): Reason {
    var active := Active(candidates, now, cfg.ttl);
    var k := IndexOfCode(active, code);
    var themes := set t | t in Themes(cfg, code) && t in ActiveThemes(cfg, active);
    if k < |active| then AsCandidate(active[k].sources, active[k].hits)
    else if themes != {} then ThroughThemes(themes, set t, c | t in themes && c in CodesOfTheme(cfg, active, t) :: c)
    else Unexplained
  }

  class CandidateManager {
    const cfg: Config
    var candidates: seq<Candidate>
    var currentTargets: seq<string>
    var dirty: bool
    var lastAppliedAt: int

    constructor (cfg: Config)
      ensures this.cfg == cfg && candidates == [] && currentTargets == [] && !dirty && lastAppliedAt == 0
    {
      this.cfg := cfg;
      candidates, currentTargets, dirty, lastAppliedAt := [], [], false, 0;
    }

    // The code as normalised, when it has one.
    method Observe(code: Option<string>, source: string, now: int) returns (taken: bool)
      modifies this`candidates, this`dirty
      ensures taken <==> code.Some?
      ensures taken ==> candidates == Observed(old(candidates), code.value, source, now) && dirty
      ensures !taken ==> candidates == old(candidates) && dirty == old(dirty)
    {
      if code.None? { return false; }
      var k := IndexOfCode(candidates, code.value);
      ghost var observed := Observed(candidates, code.value, source, now);
      if k == |candidates| { candidates := candidates + [Candidate(code.value, now, 0, {})]; }
      var c := candidates[k];
      candidates := candidates[k := Candidate(code.value, now, c.hits + 1, c.sources + {source})];
      assert {} + {source} == {source};
      assert candidates == observed;
      dirty := true;
      return true;
    }

    method SelectTargets(now: int) returns (targets: seq<string>)
      modifies this`dirty
      ensures currentTargets != [] && now - lastAppliedAt < cfg.minimumInterval ==> targets == currentTargets && !dirty
      ensures !(currentTargets != [] && now - lastAppliedAt < cfg.minimumInterval) ==>
                targets == FreshTargets(cfg, candidates, currentTargets, now) && (dirty <==> targets != currentTargets)
    {
      hide Sort, Tally, Mentions, Active;
      if currentTargets != [] && now - lastAppliedAt < cfg.minimumInterval {
        dirty := false;
        return currentTargets;
      }
      var active := FindActive(candidates, now, cfg.ttl);
      var primary := Primary(active, cfg.maxSubscriptions);
      var related := RankRelated(cfg, active);
      var selected := TakeDistinct(primary + related, cfg.maxSubscriptions);
      targets := Stabilise(currentTargets, selected);
      dirty := targets != currentTargets;
    }

    method Applied(targets: seq<string>, now: int)
      modifies this`currentTargets, this`lastAppliedAt, this`dirty
      ensures currentTargets == targets && lastAppliedAt == now && !dirty
    {
      currentTargets, lastAppliedAt, dirty := targets, now, false;
    }

    method ExplainTargets(targets: seq<string>, now: int) returns (reasons: map<string, Reason>)
      ensures forall code :: code in reasons <==> code in targets
      ensures forall code | code in reasons :: reasons[code] == ReasonOf(cfg, candidates, code, now)
    {
      hide Active, Themes, ReasonOf;
      var active := FindActive(candidates, now, cfg.ttl);
      var byTheme := GroupByTheme(cfg, active);
      reasons := map[];
      for i := 0 to |targets|
        invariant forall code :: code in reasons <==> code in targets[..i]
        invariant forall code | code in reasons :: reasons[code] == ReasonOf(cfg, candidates, code, now)
      {
        var reason := Explain(cfg, candidates, now, active, byTheme, targets[i]);
        reasons := reasons[targets[i] := reason];
      }
    }
  }

  // One target's reason, looked up in the active candidates and their codes by theme.
  method Explain(cfg: Config, ghost candidates: seq<Candidate>, ghost now: int, active: seq<Candidate>, byTheme: map<string, set<string>>, code: string)
    returns (reason: Reason)
    requires active == Active(candidates, now, cfg.ttl)
    requires byTheme.Keys == ActiveThemes(cfg, active) && forall t | t in byTheme :: byTheme[t] == CodesOfTheme(cfg, active, t)
    ensures reason == ReasonOf(cfg, candidates, code, now)
  {
    hide Active, Themes, ActiveThemes, CodesOfTheme;
    var k := IndexOfCode(active, code);
    if k < |active| { return AsCandidate(active[k].sources, active[k].hits); }
    var themes := set t | t in Themes(cfg, code) && t in byTheme;
    if themes == {} { return Unexplained; }
    return ThroughThemes(themes, set t, c | t in themes && c in byTheme[t] :: c);
  }

  method FindActive(candidates: seq<Candidate>, now: int, ttl: int) returns (active: seq<Candidate>)
    ensures active == Active(candidates, now, ttl)
  {
    active := [];
    for i := 0 to |candidates|
      invariant active == Active(candidates[..i], now, ttl)
    {
      assert candidates[..i + 1][..i] == candidates[..i];
      if now - candidates[i].lastSeen <= ttl { active := active + [candidates[i]]; }
    }
    assert candidates[..|candidates|] == candidates;
  }

  // The active candidates' codes under each of their themes.
  method GroupByTheme(cfg: Config, active: seq<Candidate>) returns (byTheme: map<string, set<string>>)
    ensures byTheme.Keys == ActiveThemes(cfg, active) && forall t | t in byTheme :: byTheme[t] == CodesOfTheme(cfg, active, t)
  {
    hide Themes;
    byTheme := map[];
    for i := 0 to |active|
      invariant forall t :: t in byTheme <==> t in ActiveThemes(cfg, active[..i])
      invariant forall t | t in byTheme :: byTheme[t] == CodesOfTheme(cfg, active[..i], t)
    {
      assert active[..i + 1] == active[..i] + [active[i]];
      var own, code := Themes(cfg, active[i].code), active[i].code;
      byTheme := map t | t in byTheme.Keys + (set x | x in own) ::
        (if t in byTheme then byTheme[t] else {}) + if t in own then {code} else {};
    }
    assert active[..|active|] == active;
  }

  method RankRelated(cfg: Config, active: seq<Candidate>) returns (related: seq<string>)
    ensures related == Related(Mentions(cfg, active))
  {
    hide Themes, Members, Sort, ThemeMentions, Tally, MentionedCodes;
    var scores: map<string, Score>, keys: seq<string> := map[], [];
    NothingTallied();
    for i := 0 to |active|
      invariant scores == Tally(Mentions(cfg, active[..i])) && keys == MentionedCodes(Mentions(cfg, active[..i]))
    {
      assert active[..i + 1][..i] == active[..i];
      scores, keys := CreditThemes(cfg, Themes(cfg, active[i].code), scores, keys, Mentions(cfg, active[..i]));
    }
    assert active[..|active|] == active;
    return Sort(keys, ByScore(scores));
  }

  lemma NothingTallied()
    ensures Tally([]) == map[] && MentionedCodes([]) == []
  {
  }

  // The themes of one candidate.
  method CreditThemes(cfg: Config, themes: seq<string>, scores0: map<string, Score>, keys0: seq<string>, ghost done: seq<Mention>)
    returns (scores: map<string, Score>, keys: seq<string>)
    requires scores0 == Tally(done) && keys0 == MentionedCodes(done)
    ensures scores == Tally(done + ThemeMentions(cfg, themes)) && keys == MentionedCodes(done + ThemeMentions(cfg, themes))
  {
    hide Members, Tally, MentionedCodes, MemberMentions;
    scores, keys := scores0, keys0;
    assert done + [] == done;
    for j := 0 to |themes|
      invariant scores == Tally(done + ThemeMentions(cfg, themes[..j])) && keys == MentionedCodes(done + ThemeMentions(cfg, themes[..j]))
    {
      assert themes[..j + 1][..j] == themes[..j];
      ghost var mine := MemberMentions(Members(cfg, themes[j]));
      assert done + ThemeMentions(cfg, themes[..j + 1]) == done + ThemeMentions(cfg, themes[..j]) + mine;
      scores, keys := CreditMembers(Members(cfg, themes[j]), scores, keys, done + ThemeMentions(cfg, themes[..j]));
    }
    assert themes[..|themes|] == themes;
  }

  // The members of one theme, in their own order.
  method CreditMembers(members: seq<string>, scores0: map<string, Score>, keys0: seq<string>, ghost done: seq<Mention>)
    returns (scores: map<string, Score>, keys: seq<string>)
    requires scores0 == Tally(done) && keys0 == MentionedCodes(done)
    ensures scores == Tally(done + MemberMentions(members)) && keys == MentionedCodes(done + MemberMentions(members))
  {
    hide Credit, AddNew, Tally, MentionedCodes, MemberMentions;
    scores, keys := scores0, keys0;
    ghost var seen := done;
    FirstMentions(members, 0);
    for k := 0 to |members|
      invariant seen == done + MemberMentions(members[..k]) && scores == Tally(seen) && keys == MentionedCodes(seen)
    {
      var m := Mention(members[k], k);
      FirstMentions(members, k);
      TallyNext(seen, m);
      scores, keys := Credit(scores, m), AddNew(keys, m.code);
      seen := seen + [m];
    }
    assert members[..|members|] == members;
  }

  lemma FirstMentions(members: seq<string>, k: nat)
    requires k <= |members|
    ensures MemberMentions(members[..0]) == []
    ensures k < |members| ==> MemberMentions(members[..k + 1]) == MemberMentions(members[..k]) + [Mention(members[k], k)]
  {
  }

  lemma TallyNext(mentions: seq<Mention>, m: Mention)
    ensures Tally(mentions + [m]) == Credit(Tally(mentions), m)
    ensures MentionedCodes(mentions + [m]) == AddNew(MentionedCodes(mentions), m.code)
  {
    hide Credit, AddNew;
    assert (mentions + [m])[..|mentions|] == mentions;
  }

  method TakeDistinct(codes: seq<string>, maximum: nat) returns (selected: seq<string>)
    ensures selected == Take(Dedupe(codes), maximum) && Distinct(selected)
  {
    hide AddNew;
    DedupeHas(codes);
    selected := [];
    for i := 0 to |codes|
      invariant selected == Dedupe(codes[..i])
      invariant i > 0 ==> |selected| < maximum
    {
      assert codes[..i + 1][..i] == codes[..i];
      OneNewAtMost(selected, codes[i]);
      selected := AddNew(selected, codes[i]);
      if |selected| >= maximum {
        DedupeGrows(codes, i + 1);
        return;
      }
    }
    assert codes[..|codes|] == codes;
  }

  lemma {:induction false} DedupeHas(codes: seq<string>)
    ensures Distinct(Dedupe(codes)) && forall c :: c in Dedupe(codes) <==> c in codes
  {
    if codes != [] {
      var front, last := codes[..|codes| - 1], codes[|codes| - 1];
      DedupeHas(front);
      assert codes == front + [last];
      SnocDistinct(Dedupe(front), last);
    }
  }

  lemma OneNewAtMost(codes: seq<string>, code: string)
    ensures codes <= AddNew(codes, code) && |AddNew(codes, code)| <= |codes| + 1
    ensures codes == [] ==> |AddNew(codes, code)| == 1
  {
  }

  lemma {:induction false} DedupeGrows(codes: seq<string>, i: nat)
    requires i <= |codes|
    ensures Dedupe(codes[..i]) <= Dedupe(codes)
    decreases |codes| - i
  {
    if i == |codes| {
      assert codes[..i] == codes;
    } else {
      assert codes[..i + 1][..i] == codes[..i];
      DedupeGrows(codes, i + 1);
    }
  }

  method Stabilise(current: seq<string>, selected: seq<string>) returns (stable: seq<string>)
    requires Distinct(selected)
    ensures stable == Stable(current, selected)
  {
    stable := [];
    for i := 0 to |current|
      invariant stable == Keep(current[..i], selected)
    {
      assert current[..i + 1][..i] == current[..i];
      if current[i] in selected { stable := stable + [current[i]]; }
    }
    assert current[..|current|] == current;
    KeepHas(current, selected);
    ghost var kept := stable;
    for i := 0 to |selected|
      invariant stable == kept + Omit(selected[..i], current)
    {
      assert selected[..i + 1][..i] == selected[..i];
      OmitHas(selected[..i], current);
      assert selected[i] !in selected[..i];
      if selected[i] !in stable { stable := stable + [selected[i]]; }
    }
    assert selected[..|selected|] == selected;
  }

  lemma {:induction false} KeepHas(codes: seq<string>, wanted: seq<string>)
    ensures forall c :: c in Keep(codes, wanted) <==> c in codes && c in wanted
    ensures Distinct(codes) ==> Distinct(Keep(codes, wanted))
  {
    if codes != [] {
      var front, last := codes[..|codes| - 1], codes[|codes| - 1];
      KeepHas(front, wanted);
      assert codes == front + [last];
      if Distinct(codes) { SnocDistinct(Keep(front, wanted), last); }
    }
  }

  lemma {:induction false} OmitHas(codes: seq<string>, unwanted: seq<string>)
    ensures forall c :: c in Omit(codes, unwanted) <==> c in codes && c !in unwanted
    ensures Distinct(codes) ==> Distinct(Omit(codes, unwanted))
  {
    if codes != [] {
      var front, last := codes[..|codes| - 1], codes[|codes| - 1];
      OmitHas(front, unwanted);
      assert codes == front + [last];
      if Distinct(codes) { SnocDistinct(Omit(front, unwanted), last); }
    }
  }

  lemma SnocDistinct(codes: seq<string>, last: string)
    ensures Distinct(codes) && last !in codes ==> Distinct(codes + [last])
  {
  }

  // ----- What a fresh selection is -----

  ghost predicate DistinctCodes(candidates: seq<Candidate>) { forall i, j | 0 <= i < j < |candidates| :: candidates[i].code != candidates[j].code }

  /** Observing keeps one candidate a code. */
  lemma ObservedDistinct(candidates: seq<Candidate>, code: string, source: string, now: int)
    requires DistinctCodes(candidates)
    ensures DistinctCodes(Observed(candidates, code, source, now))
  {
    var k := IndexOfCode(candidates, code);
    if k == |candidates| {
      forall i | 0 <= i < |candidates| ensures candidates[i].code != code { assert candidates[i] in candidates; }
    }
  }

  lemma {:induction false} ActiveAre(candidates: seq<Candidate>, now: int, ttl: int)
    ensures forall c :: c in Active(candidates, now, ttl) <==> c in candidates && now - c.lastSeen <= ttl
    ensures DistinctCodes(candidates) ==> DistinctCodes(Active(candidates, now, ttl))
  {
    hide DistinctCodes;
    if candidates == [] {
      assert Active(candidates, now, ttl) == candidates;
    } else {
      var front, last := candidates[..|candidates| - 1], candidates[|candidates| - 1];
      ActiveAre(front, now, ttl);
      assert candidates == front + [last];
      if DistinctCodes(candidates) {
        LastIsNew(front, last);
        var active := Active(front, now, ttl);
        DistinctSnoc(active, last);
      }
    }
  }

  lemma LastIsNew(front: seq<Candidate>, last: Candidate)
    requires DistinctCodes(front + [last])
    ensures DistinctCodes(front) && forall c | c in front :: c.code != last.code
  {
    var all := front + [last];
    assert all[|front|] == last;
    forall c | c in front ensures c.code != last.code {
      var k :| 0 <= k < |front| && front[k] == c;
      assert all[k] == c;
    }
    assert forall i | 0 <= i < |front| :: all[i] == front[i];
  }

  lemma DistinctSnoc(candidates: seq<Candidate>, last: Candidate)
    requires DistinctCodes(candidates) && forall c | c in candidates :: c.code != last.code
    ensures DistinctCodes(candidates + [last])
  {
    forall i | 0 <= i < |candidates| ensures candidates[i].code != last.code { assert candidates[i] in candidates; }
  }

  lemma RankLeIsTotal()
    ensures TotalPreorder(RankLe)
  {
    StrLeIsTotalOrder();
  }

  lemma ByScoreIsTotal(scores: map<string, Score>)
    ensures TotalPreorder(ByScore(scores))
  {
    StrLeIsTotalOrder();
  }

  /** A score counts the mentions of a stock and remembers the earliest place. */
  lemma {:induction false} TallyCounts(mentions: seq<Mention>, code: string)
    ensures code in Tally(mentions) <==> exists m :: m in mentions && m.code == code
    ensures code in MentionedCodes(mentions) <==> code in Tally(mentions)
    ensures ScoreOf(Tally(mentions), code).count == MentionCount(mentions, code)
    ensures ScoreOf(Tally(mentions), code).order <= NO_ORDER
    ensures forall m | m in mentions && m.code == code :: ScoreOf(Tally(mentions), code).order <= m.order
    ensures ScoreOf(Tally(mentions), code).order == NO_ORDER
            || exists m :: m in mentions && m.code == code && m.order == ScoreOf(Tally(mentions), code).order
  {
    if mentions != [] {
      var front, last := mentions[..|mentions| - 1], mentions[|mentions| - 1];
      TallyCounts(front, code);
      assert mentions == front + [last];
    }
  }

  function MentionCount(mentions: seq<Mention>, code: string): nat {
    if mentions == [] then 0
    else MentionCount(mentions[..|mentions| - 1], code) + if mentions[|mentions| - 1].code == code then 1 else 0
  }

  lemma {:induction false} MentionedDistinct(mentions: seq<Mention>)
    ensures Distinct(MentionedCodes(mentions))
  {
    if mentions != [] {
      MentionedDistinct(mentions[..|mentions| - 1]);
      SnocDistinct(MentionedCodes(mentions[..|mentions| - 1]), mentions[|mentions| - 1].code);
    }
  }

  lemma {:induction false} ThemeMentionsAre(cfg: Config, themes: seq<string>)
    ensures forall m | m in ThemeMentions(cfg, themes) :: exists t :: t in themes && m.code in Members(cfg, t)
  {
    hide Members;
    if themes != [] {
      var front, last := themes[..|themes| - 1], themes[|themes| - 1];
      ThemeMentionsAre(cfg, front);
      forall m | m in MemberMentions(Members(cfg, last)) ensures m.code in Members(cfg, last) {}
      assert last in themes;
    }
  }

  // The stock is a member of a theme of an active candidate.
  ghost predicate Touched(cfg: Config, active: seq<Candidate>, code: string) {
    exists c, t :: c in active && t in Themes(cfg, c.code) && code in Members(cfg, t)
  }

  lemma {:induction false} MentionsAreTouched(cfg: Config, active: seq<Candidate>)
    ensures forall m | m in Mentions(cfg, active) :: Touched(cfg, active, m.code)
  {
    hide Themes, Members;
    if active != [] {
      var front, last := active[..|active| - 1], active[|active| - 1];
      MentionsAreTouched(cfg, front);
      ThemeMentionsAre(cfg, Themes(cfg, last.code));
      assert last in active;
      forall m | m in Mentions(cfg, front) ensures Touched(cfg, active, m.code) {
        var c, t :| c in front && t in Themes(cfg, c.code) && m.code in Members(cfg, t);
        assert c in active;
      }
    }
  }

  ghost predicate Outranks(active: seq<Candidate>, a: string, b: string) {
    exists x, y :: x in active && y in active && x.code == a && y.code == b && RankLe(x, y)
  }

  // Every place in the ranking, primaries first.
  ghost predicate RankedBefore(active: seq<Candidate>, primary: seq<string>, scores: map<string, Score>, a: string, b: string) {
    (a in primary && b !in primary)
    || (a in primary && b in primary && Outranks(active, a, b))
    || (a !in primary && b !in primary && RelatedLe(scores, a, b))
  }

  lemma {:induction false} DedupeOfDistinct(codes: seq<string>)
    requires Distinct(codes)
    ensures Dedupe(codes) == codes
  {
    if codes != [] {
      DedupeOfDistinct(codes[..|codes| - 1]);
      assert codes == codes[..|codes| - 1] + [codes[|codes| - 1]];
    }
  }

  lemma {:induction false} DedupeOfSum(a: seq<string>, b: seq<string>)
    requires Distinct(a) && Distinct(b)
    ensures Dedupe(a + b) == a + Omit(b, a)
  {
    if b == [] {
      assert a + b == a;
      DedupeOfDistinct(a);
    } else {
      var front, last := b[..|b| - 1], b[|b| - 1];
      assert (a + b)[..|a + b| - 1] == a + front;
      DedupeOfSum(a, front);
      OmitHas(front, a);
    }
  }

  lemma {:induction false} OmitKeepsSorted(codes: seq<string>, unwanted: seq<string>, le: (string, string) -> bool)
    requires SortedBy(codes, le)
    ensures SortedBy(Omit(codes, unwanted), le)
  {
    if codes != [] {
      var front, last := codes[..|codes| - 1], codes[|codes| - 1];
      OmitKeepsSorted(front, unwanted, le);
      OmitHas(front, unwanted);
      var kept := Omit(front, unwanted);
      forall i | 0 <= i < |kept| ensures le(kept[i], last) {
        assert kept[i] in front;
        var k :| 0 <= k < |front| && front[k] == kept[i];
        assert codes[k] == kept[i];
      }
    }
  }

  ghost predicate HasCode(active: seq<Candidate>, code: string) { exists x :: x in active && x.code == code }

  lemma PrimaryRanked(active: seq<Candidate>, maximum: nat)
    requires DistinctCodes(active)
    ensures var primary := Primary(active, maximum);
            && Distinct(primary) && |primary| <= maximum && |primary| <= PRIMARY_LIMIT
            && (forall i | 0 <= i < |primary| :: HasCode(active, primary[i]))
            && (forall i, j | 0 <= i < j < |primary| :: Outranks(active, primary[i], primary[j]))
            && (|primary| < maximum && |primary| < PRIMARY_LIMIT ==> forall c | c in active :: c.code in primary)
  {
    hide *;
    PrimaryIsTheFront(active, maximum);
    FrontIsDistinct(active, Sort(active, RankLe), Primary(active, maximum));
    FrontIsRanked(active, Sort(active, RankLe), Primary(active, maximum));
    if |Primary(active, maximum)| == |Sort(active, RankLe)| { FrontIsAll(active, Sort(active, RankLe), Primary(active, maximum)); }
  }

  lemma FrontIsDistinct(active: seq<Candidate>, ranked: seq<Candidate>, primary: seq<string>)
    requires DistinctCodes(ranked) && |primary| <= |ranked| && forall i | 0 <= i < |primary| :: primary[i] == ranked[i].code
    ensures Distinct(primary)
  {
  }

  lemma FrontIsRanked(active: seq<Candidate>, ranked: seq<Candidate>, primary: seq<string>)
    requires SortedBy(ranked, RankLe) && forall c :: c in ranked <==> c in active
    requires |primary| <= |ranked| && forall i | 0 <= i < |primary| :: primary[i] == ranked[i].code
    ensures forall i | 0 <= i < |primary| :: HasCode(active, primary[i])
    ensures forall i, j | 0 <= i < j < |primary| :: Outranks(active, primary[i], primary[j])
  {
    hide RankLe;
    forall i | 0 <= i < |primary| ensures ranked[i] in active && HasCode(active, primary[i]) {
      assert ranked[i] in ranked;
      assert ranked[i] in active && ranked[i].code == primary[i];
    }
    forall i, j | 0 <= i < j < |primary| ensures Outranks(active, primary[i], primary[j]) {
      assert RankLe(ranked[i], ranked[j]) && ranked[i] in active && ranked[j] in active;
      assert ranked[i].code == primary[i] && ranked[j].code == primary[j];
    }
  }

  lemma FrontIsAll(active: seq<Candidate>, ranked: seq<Candidate>, primary: seq<string>)
    requires forall c :: c in ranked <==> c in active
    requires |primary| == |ranked| && forall i | 0 <= i < |primary| :: primary[i] == ranked[i].code
    ensures forall c | c in active :: c.code in primary
  {
    forall c | c in active ensures c.code in primary {
      assert c in ranked;
      var k :| 0 <= k < |ranked| && ranked[k] == c;
      assert primary[k] == c.code;
    }
  }

  lemma PrimaryIsTheFront(active: seq<Candidate>, maximum: nat)
    requires DistinctCodes(active)
    ensures var ranked, primary := Sort(active, RankLe), Primary(active, maximum);
            && SortedBy(ranked, RankLe) && DistinctCodes(ranked) && (forall c :: c in ranked <==> c in active)
            && |primary| <= maximum && |primary| <= PRIMARY_LIMIT && |primary| <= |ranked|
            && (|primary| == maximum || |primary| == PRIMARY_LIMIT || |primary| == |ranked|)
            && forall i | 0 <= i < |primary| :: primary[i] == ranked[i].code
  {
    RankLeIsTotal();
    SortCorrect(active, RankLe);
    hide RankLe, Sort, SortedBy;
    RankedDistinct(active, Sort(active, RankLe));
  }

  lemma RankedDistinct(active: seq<Candidate>, ranked: seq<Candidate>)
    requires DistinctCodes(active) && multiset(ranked) == multiset(active)
    ensures DistinctCodes(ranked)
  {
    assert Distinct(active);
    DistinctOfMultiset(active, ranked);
    forall i, j | 0 <= i < j < |ranked| ensures ranked[i].code != ranked[j].code {
      assert ranked[i] in multiset(active) && ranked[j] in multiset(active);
      var a :| 0 <= a < |active| && active[a] == ranked[i];
      var b :| 0 <= b < |active| && active[b] == ranked[j];
    }
  }

  /** The ranking lists each code once: the leading candidates by recency, then the other theme members by score. */
  lemma RankingIsOrdered(cfg: Config, candidates: seq<Candidate>, now: int)
    requires DistinctCodes(candidates)
    ensures var active, ranking := Active(candidates, now, cfg.ttl), Ranking(cfg, candidates, now);
            var primary, mentions := Primary(active, cfg.maxSubscriptions), Mentions(cfg, active);
            && Distinct(ranking)
            && (forall c :: c in ranking <==> c in primary || exists m :: m in mentions && m.code == c)
            && forall i, j | 0 <= i < j < |ranking| :: RankedBefore(active, primary, Tally(mentions), ranking[i], ranking[j])
  {
    hide Active, Primary, Mentions, Related, Dedupe, DistinctCodes, Distinct, SortedBy, RankedBefore, RankLe, Tally, Outranks;
    var active, ranking := Active(candidates, now, cfg.ttl), Ranking(cfg, candidates, now);
    var primary, mentions := Primary(active, cfg.maxSubscriptions), Mentions(cfg, active);
    ActiveAre(candidates, now, cfg.ttl);
    PrimaryRanked(active, cfg.maxSubscriptions);
    RelatedRanked(mentions);
    RankingParts(active, primary, mentions, ranking);
  }

  lemma RelatedRanked(mentions: seq<Mention>)
    ensures var related := Related(mentions);
            && Distinct(related) && SortedBy(related, ByScore(Tally(mentions)))
            && forall c :: c in related <==> exists m :: m in mentions && m.code == c
  {
    MentionedDistinct(mentions);
    ByScoreIsTotal(Tally(mentions));
    SortCorrect(MentionedCodes(mentions), ByScore(Tally(mentions)));
    DistinctOfMultiset(MentionedCodes(mentions), Related(mentions));
    forall c ensures c in MentionedCodes(mentions) <==> exists m :: m in mentions && m.code == c { TallyCounts(mentions, c); }
  }

  lemma RankingParts(active: seq<Candidate>, primary: seq<string>, mentions: seq<Mention>, ranking: seq<string>)
    requires ranking == Dedupe(primary + Related(mentions))
    requires Distinct(primary) && Distinct(Related(mentions)) && SortedBy(Related(mentions), ByScore(Tally(mentions)))
    requires forall i, j | 0 <= i < j < |primary| ::
               Outranks(active, primary[i], primary[j])
    requires forall c :: c in Related(mentions) <==> exists m :: m in mentions && m.code == c
    ensures Distinct(ranking)
    ensures forall c :: c in ranking <==> c in primary || exists m :: m in mentions && m.code == c
    ensures forall i, j | 0 <= i < j < |ranking| :: RankedBefore(active, primary, Tally(mentions), ranking[i], ranking[j])
  {
    hide Related, Tally, RankLe, RelatedLe, Outranks;
    var related, scores := Related(mentions), Tally(mentions);
    DedupeHas(primary + related);
    DedupeOfSum(primary, related);
    OmitHas(related, primary);
    OmitKeepsSorted(related, primary, ByScore(scores));
    var rest := Omit(related, primary);
    assert ranking == primary + rest;
    forall i, j | 0 <= i < j < |ranking| ensures RankedBefore(active, primary, scores, ranking[i], ranking[j]) {
      if i < |primary| && j < |primary| {
        assert ranking[i] == primary[i] && ranking[j] == primary[j];
      } else if |primary| <= i {
        assert ranking[i] == rest[i - |primary|] && ranking[j] == rest[j - |primary|];
        assert ByScore(scores)(rest[i - |primary|], rest[j - |primary|]);
        assert rest[i - |primary|] in rest && rest[j - |primary|] in rest;
      } else {
        assert ranking[j] == rest[j - |primary|] && rest[j - |primary|] in rest;
      }
    }
  }

  // Both codes stay, and in the same order.
  ghost predicate OrderKept(before: seq<string>, after: seq<string>, i: nat, j: nat)
    requires i < j < |before|
  {
    exists p, q :: 0 <= p < q < |after| && after[p] == before[i] && after[q] == before[j]
  }

  lemma {:induction false} KeepKeepsOrder(codes: seq<string>, wanted: seq<string>, i: nat, j: nat)
    requires i < j < |codes| && codes[i] in wanted && codes[j] in wanted
    ensures OrderKept(codes, Keep(codes, wanted), i, j)
  {
    var n := |codes| - 1;
    if j < n {
      KeepKeepsOrder(codes[..n], wanted, i, j);
      var kept := Keep(codes[..n], wanted);
      var p, q :| 0 <= p < q < |kept| && kept[p] == codes[..n][i] && kept[q] == codes[..n][j];
      assert Keep(codes, wanted)[p] == codes[i] && Keep(codes, wanted)[q] == codes[j];
    } else {
      KeepHas(codes[..n], wanted);
      var kept := Keep(codes[..n], wanted);
      assert codes[i] == codes[..n][i];
      assert codes[i] in kept;
      var p :| 0 <= p < |kept| && kept[p] == codes[i];
      assert Keep(codes, wanted)[p] == codes[i] && Keep(codes, wanted)[|kept|] == codes[j];
    }
  }

  lemma KeepAndOmit(current: seq<string>, selected: seq<string>)
    requires Distinct(current) && Distinct(selected)
    ensures Distinct(Stable(current, selected)) && |Stable(current, selected)| == |selected|
    ensures forall c :: c in Stable(current, selected) <==> c in selected
    ensures forall i, j | 0 <= i < j < |current| && current[i] in selected && current[j] in selected ::
              OrderKept(current, Stable(current, selected), i, j)
  {
    KeepHas(current, selected);
    OmitHas(selected, current);
    var kept, added := Keep(current, selected), Omit(selected, current);
    var stable := kept + added;
    forall i, j | 0 <= i < j < |stable| ensures stable[i] != stable[j] {
      if i < |kept| <= j { assert stable[i] in kept && stable[j] in added; }
    }
    SameSize(stable, selected);
    forall i, j | 0 <= i < j < |current| && current[i] in selected && current[j] in selected
      ensures OrderKept(current, stable, i, j)
    {
      KeepKeepsOrder(current, selected, i, j);
      var p, q :| 0 <= p < q < |kept| && kept[p] == current[i] && kept[q] == current[j];
      assert stable[p] == current[i] && stable[q] == current[j];
    }
  }

  lemma SameSize(a: seq<string>, b: seq<string>)
    requires Distinct(a) && Distinct(b) && forall c :: c in a <==> c in b
    ensures |a| == |b|
  {
    MultiplicityOne(a);
    MultiplicityOne(b);
    forall c ensures multiset(a)[c] == multiset(b)[c] {
      assert c in a <==> c in multiset(a);
      assert c in b <==> c in multiset(b);
    }
    assert multiset(a) == multiset(b);
    assert |multiset(a)| == |a| && |multiset(b)| == |b|;
  }

  /** A fresh selection repeats no code, is the front of the ranking as a set, and keeps survivors in their old order. */
  lemma FreshTargetsAreTheTop(cfg: Config, candidates: seq<Candidate>, current: seq<string>, now: int)
    requires Distinct(current)
    ensures var ranking, targets := Ranking(cfg, candidates, now), FreshTargets(cfg, candidates, current, now);
            var selected := Take(ranking, cfg.maxSubscriptions);
            && Distinct(targets) && selected <= ranking && |targets| == |selected|
            && (forall c :: c in targets <==> c in selected)
            && (|selected| == |ranking| || |selected| == if cfg.maxSubscriptions == 0 then 1 else cfg.maxSubscriptions)
            && forall i, j | 0 <= i < j < |current| && current[i] in selected && current[j] in selected :: OrderKept(current, targets, i, j)
  {
    hide Active, Primary, Related, Mentions, Dedupe;
    var active := Active(candidates, now, cfg.ttl);
    DedupeHas(Primary(active, cfg.maxSubscriptions) + Related(Mentions(cfg, active)));
    KeepAndOmit(current, Take(Ranking(cfg, candidates, now), cfg.maxSubscriptions));
  }

  /** The subscription bound holds except when it is zero and some active candidate has a theme with members. */
  lemma BoundHoldsExactlyWhen(cfg: Config, candidates: seq<Candidate>, current: seq<string>, now: int)
    requires Distinct(current)
    ensures |FreshTargets(cfg, candidates, current, now)| <= cfg.maxSubscriptions
            <==> cfg.maxSubscriptions > 0 || Mentions(cfg, Active(candidates, now, cfg.ttl)) == []
  {
    FreshTargetsAreTheTop(cfg, candidates, current, now);
    hide Active, Mentions, FreshTargets;
    var active := Active(candidates, now, cfg.ttl);
    var mentions := Mentions(cfg, active);
    if cfg.maxSubscriptions == 0 {
      RelatedRanked(mentions);
      DedupeHas([] + Related(mentions));
      assert Primary(active, 0) == [];
      assert [] + Related(mentions) == Related(mentions);
      assert Ranking(cfg, candidates, now) == Dedupe(Related(mentions));
      if mentions != [] {
        hide Related, Dedupe;
        assert mentions[0] in mentions;
        assert mentions[0].code in Dedupe(Related(mentions));
      } else {
        assert Related([]) == [];
      }
    }
  }

  // ----- Every target can be explained -----

  /** A selected stock is an active candidate or a member of an active candidate's theme. */
  lemma SelectedIsTouched(cfg: Config, candidates: seq<Candidate>, current: seq<string>, now: int, code: string)
    requires DistinctCodes(candidates) && Distinct(current) && code in FreshTargets(cfg, candidates, current, now)
    ensures HasCode(Active(candidates, now, cfg.ttl), code) || Touched(cfg, Active(candidates, now, cfg.ttl), code)
  {
    hide *;
    FreshTargetsAreTheTop(cfg, candidates, current, now);
    RankingIsOrdered(cfg, candidates, now);
    ActiveAre(candidates, now, cfg.ttl);
    var active := Active(candidates, now, cfg.ttl);
    PrimaryRanked(active, cfg.maxSubscriptions);
    MentionsAreTouched(cfg, active);
    var selected, ranking := Take(Ranking(cfg, candidates, now), cfg.maxSubscriptions), Ranking(cfg, candidates, now);
    assert code in selected;
    assert code in ranking;
  }

  /** With consistent theme maps no fresh target is unresolved, as long as the candidates behind the selection are still
      active when it is explained. */
  lemma TargetsAreExplained(cfg: Config, candidates: seq<Candidate>, current: seq<string>, now: int, later: int, code: string)
    requires DistinctCodes(candidates) && Distinct(current) && Consistent(cfg)
    requires code in FreshTargets(cfg, candidates, current, now)
    requires forall c | c in candidates && now - c.lastSeen <= cfg.ttl :: later - c.lastSeen <= cfg.ttl
    ensures !ReasonOf(cfg, candidates, code, later).Unexplained?
  {
    hide FreshTargets, Active, DistinctCodes, Distinct, ReasonOf;
    SelectedIsTouched(cfg, candidates, current, now, code);
    ActiveAre(candidates, now, cfg.ttl);
    ActiveAre(candidates, later, cfg.ttl);
    ReasonMeans(cfg, candidates, code, later);
    var active := Active(candidates, now, cfg.ttl);
    if Touched(cfg, active, code) {
      var c, t :| c in active && t in Themes(cfg, c.code) && code in Members(cfg, t);
      assert t in Themes(cfg, code);
    }
  }

  // The target is the stock's own code, or shares a theme with it.
  ghost predicate Kin(cfg: Config, target: string, code: string) {
    target == code || exists t :: t in Themes(cfg, target) && t in Themes(cfg, code)
  }

  /** A target is explained exactly while it, or a stock sharing a theme with it, was seen within the lifetime. */
  lemma ReasonMeans(cfg: Config, candidates: seq<Candidate>, code: string, now: int)
    ensures ReasonOf(cfg, candidates, code, now).AsCandidate? <==> exists c :: c in candidates && now - c.lastSeen <= cfg.ttl && c.code == code
    ensures !ReasonOf(cfg, candidates, code, now).Unexplained? <==>
              exists c :: c in candidates && now - c.lastSeen <= cfg.ttl && Kin(cfg, code, c.code)
  {
    hide Active, Themes;
    ActiveAre(candidates, now, cfg.ttl);
    var active := Active(candidates, now, cfg.ttl);
    var k := IndexOfCode(active, code);
    if k < |active| {
      assert active[k] in active;
    } else {
      var themes := set t | t in Themes(cfg, code) && t in ActiveThemes(cfg, active);
      if themes != {} {
        var t :| t in themes;
        var c :| c in active && t in Themes(cfg, c.code);
        assert Kin(cfg, code, c.code);
      } else {
        forall c | c in active ensures !Kin(cfg, code, c.code) {
          forall t | t in Themes(cfg, c.code) ensures t !in Themes(cfg, code) { assert t in ActiveThemes(cfg, active); assert t !in themes; }
        }
      }
    }
  }

  // ----- The auditor's own replay -----

  datatype Recorded =
    | Seen(code: string, at: int, refreshes: bool)
    | Subscribed(targets: seq<string>, at: int)

  datatype Provenance = Provenance(decisions: nat, targets: nat, direct: nat, expanded: nat, unresolved: nat)

  const AUDIT_TTL := 1800

  function LastSeen(events: seq<Recorded>): map<string, int> {
    if events == [] then map[] else
    var last := events[|events| - 1];
    if last.Seen? && last.refreshes then LastSeen(events[..|events| - 1])[last.code := last.at] else LastSeen(events[..|events| - 1])
  }

  function AuditActive(seen: map<string, int>, at: int): set<string> { set c | c in seen && 0 <= at - seen[c] <= AUDIT_TTL }

  function AuditThemes(cfg: Config, active: set<string>): set<string> { set c, t | c in active && t in Themes(cfg, c) :: t }

  function AuditKind(cfg: Config, seen: map<string, int>, at: int, target: string): Kind {
    var active := AuditActive(seen, at);
    if target in active then DirectCandidate
    else if exists t :: t in Themes(cfg, target) && t in AuditThemes(cfg, active) then ThemeExpansion
    else Unresolved
  }

  // Every target of every recorded subscription can be traced to a recorded candidate.
  ghost predicate Traceable(cfg: Config, events: seq<Recorded>) {
    forall i | 0 <= i < |events| && events[i].Subscribed? ::
      forall target | target in events[i].targets :: !AuditKind(cfg, LastSeen(events[..i]), events[i].at, target).Unresolved?
  }

  function Decisions(events: seq<Recorded>): nat {
    if events == [] then 0 else Decisions(events[..|events| - 1]) + if events[|events| - 1].Subscribed? then 1 else 0
  }

  // `subscriptions` is how many stock subscriptions the audit counted in its first reading of the record.
  predicate Passed(p: Provenance, subscriptions: nat) {
    p.decisions == subscriptions && p.targets > 0 && p.direct + p.expanded == p.targets && p.unresolved == 0
  }

  /** The audit passes exactly when every subscription it counted is there, there is a target, and every one can be traced. */
  method AuditProvenance(cfg: Config, events: seq<Recorded>, subscriptions: nat) returns (p: Provenance)
    ensures p.targets == p.direct + p.expanded + p.unresolved
    ensures Passed(p, subscriptions) <==>
              && Traceable(cfg, events) && subscriptions == Decisions(events)
              && exists i :: 0 <= i < |events| && events[i].Subscribed? && events[i].targets != []
  {
    hide LastSeen, AuditKind, Decisions, Traceable;
    var seen: map<string, int> := map[];
    NothingSeen(cfg);
    p := Provenance(0, 0, 0, 0, 0);
    for i := 0 to |events|
      invariant seen == LastSeen(events[..i]) && p.decisions == Decisions(events[..i])
      invariant p.targets == p.direct + p.expanded + p.unresolved
      invariant p.unresolved == 0 <==> Traceable(cfg, events[..i])
      invariant p.targets > 0 <==> exists k :: 0 <= k < i && events[k].Subscribed? && events[k].targets != []
    {
      assert events[..i + 1] == events[..i] + [events[i]] && events[..i + 1][..i] == events[..i];
      SeenNext(events, i);
      DecisionsNext(events, i);
      TraceableNext(cfg, events, i);
      match events[i]
      case Seen(code, at, refreshes) =>
        if refreshes { seen := seen[code := at]; }
      case Subscribed(targets, at) =>
        p := AuditDecision(cfg, seen, targets, at, p);
    }
    assert events[..|events|] == events;
  }

  // The targets of one recorded subscription.
  method AuditDecision(cfg: Config, seen: map<string, int>, targets: seq<string>, at: int, before: Provenance) returns (p: Provenance)
    requires before.targets == before.direct + before.expanded + before.unresolved
    ensures p.targets == p.direct + p.expanded + p.unresolved && p.targets == before.targets + |targets| && p.decisions == before.decisions + 1
    ensures p.unresolved == 0 <==> before.unresolved == 0 && forall target | target in targets :: !AuditKind(cfg, seen, at, target).Unresolved?
  {
    hide AuditKind;
    p := before.(decisions := before.decisions + 1);
    for k := 0 to |targets|
      invariant p.targets == p.direct + p.expanded + p.unresolved && p.targets == before.targets + k && p.decisions == before.decisions + 1
      invariant p.unresolved == 0 <==> before.unresolved == 0 && forall j | 0 <= j < k :: !AuditKind(cfg, seen, at, targets[j]).Unresolved?
    {
      p := p.(targets := p.targets + 1);
      var kind := AuditKind(cfg, seen, at, targets[k]);
      match kind
      case DirectCandidate => p := p.(direct := p.direct + 1);
      case ThemeExpansion => p := p.(expanded := p.expanded + 1);
      case Unresolved => p := p.(unresolved := p.unresolved + 1);
    }
  }

  lemma NothingSeen(cfg: Config)
    ensures LastSeen([]) == map[] && Decisions([]) == 0 && Traceable(cfg, [])
  {
  }

  lemma DecisionsNext(events: seq<Recorded>, i: nat)
    requires i < |events|
    ensures Decisions(events[..i + 1]) == Decisions(events[..i]) + if events[i].Subscribed? then 1 else 0
  {
    assert events[..i + 1][..i] == events[..i];
  }

  lemma SeenNext(events: seq<Recorded>, i: nat)
    requires i < |events|
    ensures LastSeen(events[..i + 1]) ==
              if events[i].Seen? && events[i].refreshes then LastSeen(events[..i])[events[i].code := events[i].at] else LastSeen(events[..i])
  {
    assert events[..i + 1][..i] == events[..i];
  }

  lemma TraceableNext(cfg: Config, events: seq<Recorded>, i: nat)
    requires i < |events|
    ensures Traceable(cfg, events[..i + 1]) <==>
              Traceable(cfg, events[..i])
              && (events[i].Subscribed? ==>
                    forall target | target in events[i].targets :: !AuditKind(cfg, LastSeen(events[..i]), events[i].at, target).Unresolved?)
  {
    hide LastSeen, AuditKind;
    var now, before := events[..i + 1], events[..i];
    assert forall k | 0 <= k < i :: now[k] == before[k] && now[..k] == before[..k];
    assert now[i] == events[i] && now[..i] == before;
  }

  // The manager's candidates after the recorded events, whatever sources they were seen through.
  function Remembered(events: seq<Recorded>): seq<Candidate> {
    if events == [] then [] else
    var last := events[|events| - 1];
    if last.Seen? && last.refreshes then Observed(Remembered(events[..|events| - 1]), last.code, "", last.at)
    else Remembered(events[..|events| - 1])
  }

  ghost predicate InTimeOrder(events: seq<Recorded>) { forall i, j | 0 <= i < j < |events| :: events[i].at <= events[j].at }

  lemma {:induction false} RememberedIsSeen(events: seq<Recorded>)
    ensures DistinctCodes(Remembered(events))
    ensures forall c | c in Remembered(events) :: c.code in LastSeen(events) && LastSeen(events)[c.code] == c.lastSeen
    ensures forall code | code in LastSeen(events) :: exists i :: 0 <= i < |events| && events[i].at == LastSeen(events)[code]
  {
    if events != [] {
      var n := |events| - 1;
      var front, last := events[..n], events[n];
      RememberedIsSeen(front);
      hide Remembered, LastSeen;
      forall code | code in LastSeen(front) ensures exists i :: 0 <= i < |events| && events[i].at == LastSeen(front)[code] {
        var i :| 0 <= i < |front| && front[i].at == LastSeen(front)[code];
        assert events[i] == front[i];
      }
      RememberedNext(events);
      if last.Seen? && last.refreshes {
        ObservedDistinct(Remembered(front), last.code, "", last.at);
        ObservedSeen(Remembered(front), LastSeen(front), last.code, last.at);
      }
    }
  }

  lemma RememberedNext(events: seq<Recorded>)
    requires events != []
    ensures var n := |events| - 1; var front, last := events[..n], events[n];
            if last.Seen? && last.refreshes
            then Remembered(events) == Observed(Remembered(front), last.code, "", last.at) && LastSeen(events) == LastSeen(front)[last.code := last.at]
            else Remembered(events) == Remembered(front) && LastSeen(events) == LastSeen(front)
  {
  }

  lemma ObservedSeen(candidates: seq<Candidate>, seen: map<string, int>, code: string, at: int)
    requires DistinctCodes(candidates) && forall c | c in candidates :: c.code in seen && seen[c.code] == c.lastSeen
    ensures forall c | c in Observed(candidates, code, "", at) :: c.code in seen[code := at] && seen[code := at][c.code] == c.lastSeen
  {
    var k, after := IndexOfCode(candidates, code), Observed(candidates, code, "", at);
    forall i | 0 <= i < |after| ensures after[i].code in seen[code := at] && seen[code := at][after[i].code] == after[i].lastSeen {
      if i != k { assert after[i] == candidates[i] && candidates[i] in candidates; }
    }
  }

  // ----- The audit against the manager -----

  ghost predicate Refreshes(e: Recorded, code: string) { e.Seen? && e.refreshes && e.code == code }

  /** The auditor's table holds, for each stock refreshed at all, the latest time it was. */
  lemma {:induction false} LastSeenIsLatest(events: seq<Recorded>, code: string)
    requires InTimeOrder(events)
    ensures code in LastSeen(events) <==> exists k :: 0 <= k < |events| && Refreshes(events[k], code)
    ensures code in LastSeen(events) ==>
              && (exists k :: 0 <= k < |events| && Refreshes(events[k], code) && events[k].at == LastSeen(events)[code])
              && forall k | 0 <= k < |events| && Refreshes(events[k], code) :: events[k].at <= LastSeen(events)[code]
  {
    if events != [] {
      var n := |events| - 1;
      var front := events[..n];
      LastSeenIsLatest(front, code);
      assert forall k | 0 <= k < n :: front[k] == events[k];
      hide LastSeen;
      RememberedNext(events);
      if code in LastSeen(front) {
        var k :| 0 <= k < n && Refreshes(front[k], code) && front[k].at == LastSeen(front)[code];
        assert Refreshes(events[k], code);
      }
    }
  }

  // The manager remembers exactly the stocks the auditor has seen.
  lemma {:induction false} RememberedHas(events: seq<Recorded>, code: string)
    requires code in LastSeen(events)
    ensures exists c :: c in Remembered(events) && c.code == code && c.lastSeen == LastSeen(events)[code]
  {
    var n := |events| - 1;
    RememberedIsSeen(events);
    if events[n].Seen? && events[n].refreshes && events[n].code == code {
      var before := Remembered(events[..n]);
      var k, after := IndexOfCode(before, code), Observed(before, code, "", events[n].at);
      assert after[k] in after && after[k].code == code;
    } else {
      RememberedHas(events[..n], code);
      var c :| c in Remembered(events[..n]) && c.code == code && c.lastSeen == LastSeen(events[..n])[code];
      if events[n].Seen? && events[n].refreshes { ObservedKeeps(Remembered(events[..n]), events[n].code, events[n].at, c); }
    }
  }

  lemma ObservedKeeps(candidates: seq<Candidate>, code: string, at: int, c: Candidate)
    requires c in candidates && c.code != code
    ensures c in Observed(candidates, code, "", at)
  {
    var i :| 0 <= i < |candidates| && candidates[i] == c;
    assert Observed(candidates, code, "", at)[i] == c;
  }

  /** Over a record in time order the auditor and the manager who wrote it give every stock the same kind of reason. */
  lemma AuditorAgrees(cfg: Config, events: seq<Recorded>, at: int, target: string)
    requires InTimeOrder(events) && cfg.ttl == AUDIT_TTL && forall k | 0 <= k < |events| :: events[k].at <= at
    ensures AuditKind(cfg, LastSeen(events), at, target) == ReasonOf(cfg, Remembered(events), target, at).Kind()
    ensures !AuditKind(cfg, LastSeen(events), at, target).Unresolved? <==>
              exists c :: c in Remembered(events) && at - c.lastSeen <= AUDIT_TTL && Kin(cfg, target, c.code)
  {
    hide LastSeen, Remembered, ReasonOf, Kin, Themes;
    var seen, candidates := LastSeen(events), Remembered(events);
    RememberedIsSeen(events);
    ReasonMeans(cfg, candidates, target, at);
    forall code | code in seen ensures seen[code] <= at && exists c :: c in candidates && c.code == code && c.lastSeen == seen[code] {
      LastSeenIsLatest(events, code);
      RememberedHas(events, code);
    }
    ActiveAlike(seen, candidates, at);
    AuditMeans(cfg, seen, candidates, at, target);
  }

  lemma ActiveAlike(seen: map<string, int>, candidates: seq<Candidate>, at: int)
    requires forall c | c in candidates :: c.code in seen && seen[c.code] == c.lastSeen
    requires forall code | code in seen :: seen[code] <= at && exists c :: c in candidates && c.code == code && c.lastSeen == seen[code]
    ensures forall code :: code in AuditActive(seen, at) <==> exists c :: c in candidates && c.code == code && at - c.lastSeen <= AUDIT_TTL
  {
  }

  lemma AuditMeans(cfg: Config, seen: map<string, int>, candidates: seq<Candidate>, at: int, target: string)
    requires forall code :: code in AuditActive(seen, at) <==> exists c :: c in candidates && c.code == code && at - c.lastSeen <= AUDIT_TTL
    ensures AuditKind(cfg, seen, at, target).DirectCandidate? <==> exists c :: c in candidates && at - c.lastSeen <= AUDIT_TTL && c.code == target
    ensures !AuditKind(cfg, seen, at, target).Unresolved? <==>
              exists c :: c in candidates && at - c.lastSeen <= AUDIT_TTL && Kin(cfg, target, c.code)
  {
    hide AuditActive, Themes;
    var active := AuditActive(seen, at);
    if exists t :: t in Themes(cfg, target) && t in AuditThemes(cfg, active) {
      var t :| t in Themes(cfg, target) && t in AuditThemes(cfg, active);
      var code :| code in active && t in Themes(cfg, code);
      var c :| c in candidates && c.code == code && at - c.lastSeen <= AUDIT_TTL;
      assert Kin(cfg, target, c.code);
    }
    forall c | c in candidates && at - c.lastSeen <= AUDIT_TTL && Kin(cfg, target, c.code) && c.code != target
      ensures !AuditKind(cfg, seen, at, target).Unresolved?
    {
      var t :| t in Themes(cfg, target) && t in Themes(cfg, c.code);
      assert c.code in active && t in AuditThemes(cfg, active);
    }
  }

  // By this time the target, or a stock sharing a theme with it, was recorded as refreshed within the last thirty minutes.
  ghost predicate StillActive(cfg: Config, events: seq<Recorded>, at: int, target: string) {
    exists k :: 0 <= k < |events| && events[k].Seen? && events[k].refreshes && at - events[k].at <= AUDIT_TTL && Kin(cfg, target, events[k].code)
  }

  lemma TracedWhileActive(cfg: Config, events: seq<Recorded>, at: int, target: string)
    requires InTimeOrder(events) && forall k | 0 <= k < |events| :: events[k].at <= at
    ensures !AuditKind(cfg, LastSeen(events), at, target).Unresolved? <==> StillActive(cfg, events, at, target)
  {
    hide LastSeen, Remembered, Kin, AuditKind;
    AuditorAgrees(cfg.(ttl := AUDIT_TTL), events, at, target);
    SameThemes(cfg, LastSeen(events), at, target);
    RememberedIsSeen(events);
    if exists c :: c in Remembered(events) && at - c.lastSeen <= AUDIT_TTL && Kin(cfg, target, c.code) {
      var c :| c in Remembered(events) && at - c.lastSeen <= AUDIT_TTL && Kin(cfg, target, c.code);
      LastSeenIsLatest(events, c.code);
      var k :| 0 <= k < |events| && Refreshes(events[k], c.code) && events[k].at == c.lastSeen;
      assert StillActive(cfg, events, at, target);
    }
    if StillActive(cfg, events, at, target) {
      var k :| 0 <= k < |events| && events[k].Seen? && events[k].refreshes && at - events[k].at <= AUDIT_TTL && Kin(cfg, target, events[k].code);
      assert Refreshes(events[k], events[k].code);
      LastSeenIsLatest(events, events[k].code);
      RememberedHas(events, events[k].code);
    }
  }

  lemma SameThemes(cfg: Config, seen: map<string, int>, at: int, target: string)
    ensures AuditKind(cfg.(ttl := AUDIT_TTL), seen, at, target) == AuditKind(cfg, seen, at, target)
    ensures forall code :: Kin(cfg.(ttl := AUDIT_TTL), target, code) <==> Kin(cfg, target, code)
  {
    var cfg' := cfg.(ttl := AUDIT_TTL);
    assert forall code :: Themes(cfg', code) == Themes(cfg, code);
    hide Themes;
    assert AuditThemes(cfg', AuditActive(seen, at)) == AuditThemes(cfg, AuditActive(seen, at));
  }

  /** Whoever wrote it, a record in time order is accepted exactly when each target of each subscription, or a stock sharing a
      theme with it, had been refreshed in the thirty minutes before that subscription was recorded. */
  lemma AuditAcceptsExactlyWhen(cfg: Config, events: seq<Recorded>)
    requires InTimeOrder(events)
    ensures Traceable(cfg, events) <==>
              forall i | 0 <= i < |events| && events[i].Subscribed? ::
                forall target | target in events[i].targets :: StillActive(cfg, events[..i], events[i].at, target)
  {
    hide LastSeen, AuditKind, StillActive;
    forall i, target | 0 <= i < |events| && events[i].Subscribed? && target in events[i].targets
      ensures !AuditKind(cfg, LastSeen(events[..i]), events[i].at, target).Unresolved? <==> StillActive(cfg, events[..i], events[i].at, target)
    {
      assert forall k | 0 <= k < i :: events[..i][k] == events[k] && events[k].at <= events[i].at;
      TracedWhileActive(cfg, events[..i], events[i].at, target);
    }
  }

  // ----- The collector that keeps the record -----

  // A selection: the targets, and how much of the record the manager had seen when it made it, at what time.
  datatype Choice = Choice(targets: seq<string>, after: nat, at: int)

  // What the collector holds between two of its suspensions: the record with the choice behind each recorded subscription, the
  // choice in force, and the one on its way to the exchange.
  datatype Collector = Collector(events: seq<Recorded>, choices: map<nat, Choice>, current: Option<Choice>, pending: Option<Choice>)

  datatype Step =
    | Observe(code: string, refreshes: bool)
    | Choose
    | Reconnect
    | Register
    | Disconnect

  const IDLE := Collector([], map[], None, None)

  function TargetsOf(choice: Option<Choice>): seq<string> { if choice.Some? then choice.value.targets else [] }

  // A registration is sent first and recorded once the send returns; a reconnection sends the targets in force again.
  function Next(cfg: Config, c: Collector, step: Step, at: int): Collector {
    match step
    case Observe(code, refreshes) => c.(events := c.events + [Seen(code, at, refreshes)])
    case Choose =>
      var targets := FreshTargets(cfg, Remembered(c.events), TargetsOf(c.current), at);
      if targets != TargetsOf(c.current) then c.(pending := Some(Choice(targets, |c.events|, at))) else c
    case Reconnect => c.(pending := if TargetsOf(c.current) != [] then c.current else None)
    case Register =>
      if c.pending.None? then c
      else Collector(c.events + [Subscribed(c.pending.value.targets, at)], c.choices[|c.events| := c.pending.value], c.pending, None)
    case Disconnect => c.(pending := None)
  }

  function Collected(cfg: Config, steps: seq<(Step, int)>): Collector {
    if steps == [] then IDLE else Next(cfg, Collected(cfg, steps[..|steps| - 1]), steps[|steps| - 1].0, steps[|steps| - 1].1)
  }

  ghost predicate ClockForward(steps: seq<(Step, int)>) { forall i, j | 0 <= i < j < |steps| :: steps[i].1 <= steps[j].1 }

  // The choice is a fresh selection made from the beginning of this record.
  ghost predicate Selected(cfg: Config, events: seq<Recorded>, choice: Choice) {
    && choice.after <= |events| && (forall k | 0 <= k < choice.after :: events[k].at <= choice.at)
    && exists current :: Distinct(current) && choice.targets == FreshTargets(cfg, Remembered(events[..choice.after]), current, choice.at)
  }

  // Every recorded subscription carries the targets of a choice made no later, from what had been recorded by then.
  ghost predicate Accountable(cfg: Config, c: Collector) {
    && InTimeOrder(c.events)
    && (forall i: nat :: i in c.choices <==> i < |c.events| && c.events[i].Subscribed?)
    && forall i | i in c.choices :: Recalled(cfg, c.events, i, c.choices[i])
  }

  ghost predicate Recalled(cfg: Config, events: seq<Recorded>, i: nat, choice: Choice)
    requires i < |events| && events[i].Subscribed?
  {
    events[i].targets == choice.targets && choice.after <= i && choice.at <= events[i].at && Selected(cfg, events, choice)
  }

  ghost predicate Held(cfg: Config, c: Collector, choice: Option<Choice>, end: int) {
    choice.Some? ==> Selected(cfg, c.events, choice.value) && Distinct(choice.value.targets) && choice.value.at <= end
  }

  lemma SelectedStays(cfg: Config, events: seq<Recorded>, e: Recorded, choice: Choice)
    requires Selected(cfg, events, choice)
    ensures Selected(cfg, events + [e], choice)
  {
    hide FreshTargets, Remembered;
    assert (events + [e])[..choice.after] == events[..choice.after];
  }

  lemma RecalledStays(cfg: Config, events: seq<Recorded>, e: Recorded, i: nat, choice: Choice)
    requires i < |events| && events[i].Subscribed? && Recalled(cfg, events, i, choice)
    ensures Recalled(cfg, events + [e], i, choice)
  {
    hide Selected;
    SelectedStays(cfg, events, e, choice);
  }

  lemma SelectedHere(cfg: Config, events: seq<Recorded>, current: seq<string>, at: int)
    requires Distinct(current) && forall k | 0 <= k < |events| :: events[k].at <= at
    ensures Selected(cfg, events, Choice(FreshTargets(cfg, Remembered(events), current, at), |events|, at))
  {
    hide FreshTargets, Remembered, Distinct;
    assert events[..|events|] == events;
  }

  lemma ChosenNow(cfg: Config, events: seq<Recorded>, current: seq<string>, at: int)
    requires Distinct(current) && forall k | 0 <= k < |events| :: events[k].at <= at
    ensures var targets := FreshTargets(cfg, Remembered(events), current, at);
            Distinct(targets) && Selected(cfg, events, Choice(targets, |events|, at))
  {
    hide *;
    FreshTargetsAreTheTop(cfg, Remembered(events), current, at);
    SelectedHere(cfg, events, current, at);
  }

  lemma StepIsAccountable(cfg: Config, c: Collector, step: Step, at: int)
    requires Accountable(cfg, c) && Held(cfg, c, c.current, at) && Held(cfg, c, c.pending, at)
    requires forall k | 0 <= k < |c.events| :: c.events[k].at <= at
    ensures var d := Next(cfg, c, step, at);
            && Accountable(cfg, d) && Held(cfg, d, d.current, at) && Held(cfg, d, d.pending, at)
            && forall k | 0 <= k < |d.events| :: d.events[k].at <= at
  {
    hide FreshTargets, Remembered, Selected, Recalled;
    var d := Next(cfg, c, step, at);
    if step.Choose? { ChosenNow(cfg, c.events, TargetsOf(c.current), at); }
    if |d.events| > |c.events| {
      var e := d.events[|c.events|];
      assert d.events == c.events + [e];
      forall i | i in c.choices ensures i < |c.events| && c.events[i].Subscribed? && Recalled(cfg, d.events, i, c.choices[i]) {
        RecalledStays(cfg, c.events, e, i, c.choices[i]);
      }
      if c.current.Some? { SelectedStays(cfg, c.events, e, c.current.value); }
      if c.pending.Some? { SelectedStays(cfg, c.events, e, c.pending.value); }
      if step.Register? { JustRegistered(cfg, c, at); }
    }
  }

  lemma JustRegistered(cfg: Config, c: Collector, at: int)
    requires c.pending.Some? && Held(cfg, c, c.pending, at)
    ensures Recalled(cfg, c.events + [Subscribed(c.pending.value.targets, at)], |c.events|, c.pending.value)
  {
    hide Selected;
    SelectedStays(cfg, c.events, Subscribed(c.pending.value.targets, at), c.pending.value);
    SelectedBound(cfg, c.events, c.pending.value);
  }

  lemma SelectedBound(cfg: Config, events: seq<Recorded>, choice: Choice)
    requires Selected(cfg, events, choice)
    ensures choice.after <= |events|
  {
  }

  /** However observations, selections, lost connections and registrations interleave, the record is in time order and each
      subscription in it carries a selection made earlier, perhaps much earlier, from what had been recorded by then. */
  lemma {:induction false} EveryRecordIsAccountable(cfg: Config, steps: seq<(Step, int)>, end: int)
    requires ClockForward(steps) && forall i | 0 <= i < |steps| :: steps[i].1 <= end
    ensures var c := Collected(cfg, steps);
            && Accountable(cfg, c) && Held(cfg, c, c.current, end) && Held(cfg, c, c.pending, end)
            && forall k | 0 <= k < |c.events| :: c.events[k].at <= end
  {
    hide Accountable, Next, Selected;
    if steps == [] {
      NothingCollected(cfg);
    } else {
      var n := |steps| - 1;
      var at := steps[n].1;
      assert forall i | 0 <= i < n :: steps[..n][i] == steps[i];
      EveryRecordIsAccountable(cfg, steps[..n], at);
      StepIsAccountable(cfg, Collected(cfg, steps[..n]), steps[n].0, at);
    }
  }

  lemma NothingCollected(cfg: Config)
    ensures Accountable(cfg, IDLE)
  {
  }

  /** Each recorded target was active at the time it was selected. */
  lemma TargetsWereActive(cfg: Config, events: seq<Recorded>, choice: Choice, target: string)
    requires Consistent(cfg) && cfg.ttl == AUDIT_TTL && InTimeOrder(events) && Selected(cfg, events, choice) && target in choice.targets
    ensures StillActive(cfg, events[..choice.after], choice.at, target)
  {
    hide FreshTargets, Remembered, Active, DistinctCodes, StillActive, LastSeen, AuditKind, ReasonOf;
    var front := events[..choice.after];
    var current :| Distinct(current) && choice.targets == FreshTargets(cfg, Remembered(front), current, choice.at);
    RememberedIsSeen(front);
    TargetsAreExplained(cfg, Remembered(front), current, choice.at, choice.at, target);
    AuditorAgrees(cfg, front, choice.at, target);
    TracedWhileActive(cfg, front, choice.at, target);
  }

  // By the time of its recording no stock that was active at the selection has run out of its lifetime unseen.
  ghost predicate Prompt(events: seq<Recorded>, i: nat, choice: Choice)
    requires i < |events| && choice.after <= i
  {
    forall k | 0 <= k < choice.after && events[k].Seen? && events[k].refreshes && choice.at - events[k].at <= AUDIT_TTL ::
      exists j :: k <= j < i && Refreshes(events[j], events[k].code) && events[i].at - events[j].at <= AUDIT_TTL
  }

  /** So the auditor accepts what a collector with consistent theme maps recorded, if every selection was recorded before any
      stock active in it ran out; in particular if it was recorded at once. */
  lemma AuditAcceptsManager(cfg: Config, c: Collector)
    requires Consistent(cfg) && cfg.ttl == AUDIT_TTL && Accountable(cfg, c)
    requires forall i | i in c.choices :: c.choices[i].after <= i && Prompt(c.events, i, c.choices[i])
    ensures Traceable(cfg, c.events)
  {
    hide StillActive, Selected, Prompt, Traceable;
    AuditAcceptsExactlyWhen(cfg, c.events);
    forall i | 0 <= i < |c.events| && c.events[i].Subscribed?
      ensures forall target | target in c.events[i].targets :: StillActive(cfg, c.events[..i], c.events[i].at, target)
    {
      assert i in c.choices && Recalled(cfg, c.events, i, c.choices[i]);
      forall target | target in c.events[i].targets ensures StillActive(cfg, c.events[..i], c.events[i].at, target) {
        TargetsWereActive(cfg, c.events, c.choices[i], target);
        PromptKeepsActive(cfg, c.events, i, c.choices[i], target);
      }
    }
  }

  lemma PromptKeepsActive(cfg: Config, events: seq<Recorded>, i: nat, choice: Choice, target: string)
    requires i < |events| && choice.after <= i && Prompt(events, i, choice) && StillActive(cfg, events[..choice.after], choice.at, target)
    ensures StillActive(cfg, events[..i], events[i].at, target)
  {
    hide Kin;
    var front := events[..choice.after];
    var k :| 0 <= k < |front| && front[k].Seen? && front[k].refreshes && choice.at - front[k].at <= AUDIT_TTL && Kin(cfg, target, front[k].code);
    assert events[k] == front[k];
    var j :| k <= j < i && Refreshes(events[j], events[k].code) && events[i].at - events[j].at <= AUDIT_TTL;
    assert events[..i][j] == events[j];
  }

  lemma RecordedAtOnceIsPrompt(events: seq<Recorded>, i: nat, choice: Choice)
    requires i < |events| && choice.after <= i && choice.at == events[i].at
    ensures Prompt(events, i, choice)
  {
    forall k | 0 <= k < choice.after && events[k].Seen? && events[k].refreshes && choice.at - events[k].at <= AUDIT_TTL
      ensures exists j :: k <= j < i && Refreshes(events[j], events[k].code) && events[i].at - events[j].at <= AUDIT_TTL
    {
      assert Refreshes(events[k], events[k].code);
    }
  }

  /** But a reconnection registers the old targets again as they are: after more than thirty minutes without a candidate it
      always costs the record its acceptance, whatever the maps and however the targets were selected. */
  lemma LateReconnectIsRejected(cfg: Config, steps: seq<(Step, int)>, at: int)
    requires ClockForward(steps) && TargetsOf(Collected(cfg, steps).current) != []
    requires forall i | 0 <= i < |steps| :: at - steps[i].1 > AUDIT_TTL
    ensures var c := Collected(cfg, steps + [(Reconnect, at), (Register, at)]);
            && c.events == Collected(cfg, steps).events + [Subscribed(TargetsOf(Collected(cfg, steps).current), at)]
            && ClockForward(steps + [(Reconnect, at), (Register, at)]) && !Traceable(cfg, c.events)
  {
    hide Accountable, Held, Traceable, StillActive;
    var before, longer := Collected(cfg, steps), steps + [(Reconnect, at), (Register, at)];
    var end := at - AUDIT_TTL - 1;
    EveryRecordIsAccountable(cfg, steps, end);
    EveryRecordIsAccountable(cfg, longer, at);
    assert longer[..|steps| + 1] == steps + [(Reconnect, at)] && (steps + [(Reconnect, at)])[..|steps|] == steps;
    var mid := Collected(cfg, steps + [(Reconnect, at)]);
    assert mid == Next(cfg, before, Reconnect, at);
    var c := Collected(cfg, longer);
    assert c == Next(cfg, mid, Register, at);
    InOrder(cfg, c);
    AuditAcceptsExactlyWhen(cfg, c.events);
    var n := |before.events|;
    assert c.events[n].Subscribed? && c.events[..n] == before.events;
    var target := c.events[n].targets[0];
    NothingStillActive(cfg, before.events, at, target);
    assert target in c.events[n].targets;
  }

  lemma InOrder(cfg: Config, c: Collector)
    requires Accountable(cfg, c)
    ensures InTimeOrder(c.events)
  {
  }

  lemma NothingStillActive(cfg: Config, events: seq<Recorded>, at: int, target: string)
    requires forall k | 0 <= k < |events| :: at - events[k].at > AUDIT_TTL
    ensures !StillActive(cfg, events, at, target)
  {
  }

  /** One candidate seen, subscribed and lost from sight is enough. */
  lemma ReconnectWitness(cfg: Config, code: string)
    requires cfg.maxSubscriptions > 0 && cfg.ttl == AUDIT_TTL
    ensures var steps := [(Observe(code, true), 0), (Choose, 0), (Register, 0)];
            && TargetsOf(Collected(cfg, steps).current) != []
            && !Traceable(cfg, Collected(cfg, steps + [(Reconnect, 1801), (Register, 1801)]).events)
  {
    hide *;
    var one, two, steps := [(Observe(code, true), 0)], [(Observe(code, true), 0), (Choose, 0)], [(Observe(code, true), 0), (Choose, 0), (Register, 0)];
    FirstTarget(cfg, code);
    CollectedMore(cfg, [], (Observe(code, true), 0));
    CollectedMore(cfg, one, (Choose, 0));
    CollectedMore(cfg, two, (Register, 0));
    assert [] + [(Observe(code, true), 0)] == one && one + [(Choose, 0)] == two && two + [(Register, 0)] == steps;
    ChosenAndRegistered(cfg, code);
    AllAtZero(steps);
    LateEnough(steps);
    LateReconnectIsRejected(cfg, steps, 1801);
  }

  lemma ChosenAndRegistered(cfg: Config, code: string)
    requires FreshTargets(cfg, Remembered([Seen(code, 0, true)]), [], 0) != []
    ensures TargetsOf(Next(cfg, Next(cfg, Next(cfg, IDLE, Observe(code, true), 0), Choose, 0), Register, 0).current) != []
  {
    hide FreshTargets, Remembered;
    assert [] + [Seen(code, 0, true)] == [Seen(code, 0, true)];
  }

  lemma LateEnough(steps: seq<(Step, int)>)
    requires forall i | 0 <= i < |steps| :: steps[i].1 == 0
    ensures forall i | 0 <= i < |steps| :: 1801 - steps[i].1 > AUDIT_TTL
  {
  }

  lemma AllAtZero(steps: seq<(Step, int)>)
    requires forall i | 0 <= i < |steps| :: steps[i].1 == 0
    ensures ClockForward(steps)
  {
  }

  lemma CollectedMore(cfg: Config, steps: seq<(Step, int)>, step: (Step, int))
    ensures Collected(cfg, steps + [step]) == Next(cfg, Collected(cfg, steps), step.0, step.1)
    ensures steps == [] ==> Collected(cfg, steps) == IDLE
  {
    hide Next;
    assert (steps + [step])[..|steps|] == steps;
  }

  lemma FirstTarget(cfg: Config, code: string)
    requires cfg.maxSubscriptions > 0 && cfg.ttl == AUDIT_TTL
    ensures FreshTargets(cfg, Remembered([Seen(code, 0, true)]), [], 0) != []
  {
    var seen := [Seen(code, 0, true)];
    var candidates := Remembered(seen);
    assert seen[..0] == [];
    assert candidates == Observed(Remembered(seen[..0]), code, "", 0);
    assert Remembered([]) == [];
    assert candidates == [Candidate(code, 0, 1, {""})];
    ActiveAre(candidates, 0, cfg.ttl);
    hide Active, Mentions, Related, Dedupe, Primary, FreshTargets, Remembered;
    RankingIsOrdered(cfg, candidates, 0);
    FreshTargetsAreTheTop(cfg, candidates, [], 0);
    var active := Active(candidates, 0, cfg.ttl);
    PrimaryRanked(active, cfg.maxSubscriptions);
    assert candidates[0] in active;
    assert Primary(active, cfg.maxSubscriptions) != [];
    assert Primary(active, cfg.maxSubscriptions)[0] in Ranking(cfg, candidates, 0);
  }

  /** A bound of zero is exceeded as soon as one candidate has a theme with a member. */
  lemma ZeroBoundWitness(code: string, theme: string, member: string)
    ensures var cfg := Config(map[code := [theme]], map[theme := [member]], 0, AUDIT_TTL, 1);
            |FreshTargets(cfg, Remembered([Seen(code, 0, true)]), [], 0)| > cfg.maxSubscriptions
  {
    var cfg := Config(map[code := [theme]], map[theme := [member]], 0, AUDIT_TTL, 1);
    var seen := [Seen(code, 0, true)];
    var candidates := Remembered(seen);
    assert seen[..0] == [];
    assert candidates == Observed(Remembered(seen[..0]), code, "", 0);
    assert Remembered([]) == [];
    var c := Candidate(code, 0, 1, {""});
    assert candidates == [c];
    OneMention(cfg, c, theme, member);
    hide FreshTargets, Remembered, Mentions, Active;
    BoundHoldsExactlyWhen(cfg, candidates, [], 0);
  }

  lemma OneMention(cfg: Config, c: Candidate, theme: string, member: string)
    requires c.lastSeen == 0 && cfg.ttl >= 0 && Themes(cfg, c.code) == [theme] && Members(cfg, theme) == [member]
    ensures Mentions(cfg, Active([c], 0, cfg.ttl)) != []
  {
    hide Themes, Members;
    assert [c][..0] == [];
    assert Active([c], 0, cfg.ttl) == [] + [c] == [c];
    assert [theme][..0] == [];
    assert ThemeMentions(cfg, [theme]) == ThemeMentions(cfg, []) + MemberMentions([member]);
    assert |Mentions(cfg, [c])| == |Mentions(cfg, [])| + |ThemeMentions(cfg, [theme])|;
  }
}
