/** The upstream model sync engine (controller/channel_upstream_update.go): detecting what a channel
    should add or remove against its upstream list, storing the pending lists, and applying a user's
    selection incrementally. */
module UpstreamSync {
  import opened Lists
  import opened ModelNames
  import opened Text
  import opened Wrappers

  /** regexp.MatchString: whether a pattern compiles and matches a name. */
  type Matcher = (string, string) -> bool

  const REGEX_PREFIX := "regex:"

  predicate IsRegexRule(rule: string) {
    HasPrefix(rule, REGEX_PREFIX)
  }

  predicate RuleIgnores(rule: string, name: string, matches: Matcher) {
    if IsRegexRule(rule) then matches(TrimSpace(rule[|REGEX_PREFIX|..]), name) else rule == name
  }

  predicate Ignored(rules: seq<string>, name: string, matches: Matcher) {
    exists rule | rule in rules :: RuleIgnores(rule, name, matches)
  }

  datatype Pending = Pending(add: seq<string>, remove: seq<string>)

  /** A name the channel could adopt: not served already, not the target of a redirect, not ignored. */
  predicate Addable(local: seq<string>, targets: set<string>, rules: seq<string>, matches: Matcher, name: string) {
    name !in local && name !in targets && !Ignored(rules, name, matches)
  }

  /** A name the channel serves without the upstream having it; redirect sources are virtual. */
  predicate Removable(upstream: seq<string>, sources: set<string>, name: string) {
    name !in sources && name !in upstream
  }

  function Detect(local: seq<string>, upstream: seq<string>, ignored: seq<string>, mapping: map<string, string>,
                  matches: Matcher): Pending
  {
    var l, u, rules := Normalize(local), Normalize(upstream), Normalize(ignored);
    Pending(Filter(u, m => Addable(l, mapping.Values, rules, matches, m)),
            Filter(l, m => Removable(u, mapping.Keys, m)))
  }

  method ToSet(xs: seq<string>) returns (s: set<string>)
    ensures s == set x | x in xs
  {
    s := {};
    for i := 0 to |xs|
      invariant s == set x | x in xs[..i]
    {
      assert xs[..i + 1] == xs[..i] + [xs[i]];
      s := s + {xs[i]};
    }
    assert xs[..|xs|] == xs;
  }

  /** collectPendingUpstreamModelChangesFromModels: the pending lists are normal, and they are the
      upstream and the local names, in their own order, that qualify. */
  method CollectPending(local: seq<string>, upstream: seq<string>, ignored: seq<string>, mapping: map<string, string>,
                        matches: Matcher)
    returns (add: seq<string>, remove: seq<string>)
    ensures Pending(add, remove) == Detect(local, upstream, ignored, mapping, matches)
    ensures Normal(add) && Normal(remove)
  {
    var localModels, upstreamModels, rules := Normalize(local), Normalize(upstream), Normalize(ignored);
    var localSet := ToSet(localModels);
    var upstreamSet := ToSet(upstreamModels);
    var covered := localSet + mapping.Values;
    var pendingAdd := Filter(upstreamModels, m => m !in covered && !Ignored(rules, m, matches));
    var pendingRemove := Filter(localModels, m => m !in mapping.Keys && m !in upstreamSet);
    add, remove := Normalize(pendingAdd), Normalize(pendingRemove);
    NormalizeIsNormal(local);
    NormalizeIsNormal(upstream);
    FilterNormal(upstreamModels, m => m !in covered && !Ignored(rules, m, matches));
    FilterNormal(localModels, m => m !in mapping.Keys && m !in upstreamSet);
    NormalizeFixed(pendingAdd);
    NormalizeFixed(pendingRemove);
    FilterCongruent(upstreamModels, m => m !in covered && !Ignored(rules, m, matches),
                    m => Addable(localModels, mapping.Values, rules, matches, m));
    FilterCongruent(localModels, m => m !in mapping.Keys && m !in upstreamSet,
                    m => Removable(upstreamModels, mapping.Keys, m));
  }

  // ---------------------------------------------------------------- the channel

  /** The settings of a channel that belong to the engine. */
  datatype Settings = Settings(ignored: seq<string>, detected: seq<string>, removed: seq<string>, lastCheck: int,
                               autoSync: bool)

  /** A channel row; `models` is the stored comma-separated list. */
  datatype Channel = Channel(models: string, settings: Settings, mapping: map<string, string>)

  const COMMA := ','

  /** Channel.GetModels. */
  function GetModels(models: string): seq<string> {
    if models == [] then [] else Split(TrimChar(models, COMMA), COMMA)
  }

  function LocalNames(c: Channel): seq<string> {
    Normalize(GetModels(c.models))
  }

  /** A fresh detection against `upstream` for the channel as it is stored. */
  function DetectFor(c: Channel, upstream: seq<string>, matches: Matcher): Pending {
    Detect(GetModels(c.models), upstream, c.settings.ignored, c.mapping, matches)
  }

  /** The pending lists of `c` are what a detection against `upstream` found. */
  ghost predicate CameFrom(c: Channel, upstream: seq<string>, matches: Matcher) {
    Pending(c.settings.detected, c.settings.removed) == DetectFor(c, upstream, matches)
  }

  datatype Selection = Selection(add: seq<string>, ignore: seq<string>, remove: seq<string>)

  function Added(c: Channel, sel: Selection): seq<string> {
    Intersect(sel.add, Normalize(c.settings.detected))
  }

  function NewlyIgnored(c: Channel, sel: Selection): seq<string> {
    Intersect(sel.ignore, Normalize(c.settings.detected))
  }

  function Removed(c: Channel, sel: Selection): seq<string> {
    Subtract(Intersect(sel.remove, Normalize(c.settings.removed)), Added(c, sel))
  }

  /** The list of names the selection leads to: the old ones that stay, then the new ones. */
  function NextNames(c: Channel, sel: Selection): seq<string> {
    var origin, added, removed := LocalNames(c), Added(c, sel), Removed(c, sel);
    Filter(origin, m => m !in removed) + Filter(added, m => m !in origin)
  }

  function SettingsAfterApply(c: Channel, sel: Selection, now: int): Settings {
    var added, ignoredNow, removed := Added(c, sel), NewlyIgnored(c, sel), Removed(c, sel);
    Settings(Filter(Union(c.settings.ignored, ignoredNow), m => m !in added),
             Filter(Normalize(c.settings.detected), m => m !in added && m !in ignoredNow),
             Filter(Normalize(c.settings.removed), m => m !in removed),
             now, c.settings.autoSync)
  }

  function AfterApply(c: Channel, sel: Selection, now: int): Channel {
    var next := NextNames(c, sel);
    Channel(if next == LocalNames(c) then c.models else Join(next, COMMA), SettingsAfterApply(c, sel, now), c.mapping)
  }

  /** The outcome of one check: skipped, failed to fetch, or checked. */
  datatype CheckOutcome = Throttled | FetchFailed | Checked(modelsChanged: bool, autoAdded: nat)

  predicate TooSoon(c: Channel, force: bool, now: int, minInterval: int) {
    !force && c.settings.lastCheck > 0 && now - c.settings.lastCheck < minInterval
  }

  function AfterCheck(c: Channel, force: bool, allowAutoApply: bool, now: int, minInterval: int,
                      fetched: Option<seq<string>>, matches: Matcher): Channel
  {
    if TooSoon(c, force, now, minInterval) then c
    else if fetched.None? then c.(settings := c.settings.(lastCheck := now))
    else
      var found := DetectFor(c, fetched.value, matches);
      var adopt := allowAutoApply && c.settings.autoSync && found.add != [];
      Channel(if adopt then Join(LocalNames(c) + found.add, COMMA) else c.models,
              c.settings.(detected := if adopt then [] else found.add, removed := found.remove, lastCheck := now),
              c.mapping)
  }

  class UpstreamChannel {
    var models: string
    var settings: Settings
    const mapping: map<string, string>

    constructor (c: Channel)
      ensures Value() == c
    {
      models, settings, mapping := c.models, c.settings, c.mapping;
    }

    function Value(): Channel
      reads this
    {
      Channel(models, settings, mapping)
    }

    /** applyChannelUpstreamModelUpdates. */
    method Apply(sel: Selection, now: int)
      returns (added: seq<string>, dropped: seq<string>, remaining: seq<string>, remainingRemove: seq<string>,
               modelsChanged: bool)
      modifies this
      ensures Value() == AfterApply(old(Value()), sel, now)
      ensures added == Added(old(Value()), sel) && dropped == Removed(old(Value()), sel)
      ensures remaining == settings.detected && remainingRemove == settings.removed
      ensures modelsChanged <==> NextNames(old(Value()), sel) != LocalNames(old(Value()))
    {
      added, dropped, remaining, remainingRemove, modelsChanged, models, settings := ComputeApply(Value(), sel, now);
    }

    /** checkAndPersistChannelUpstreamModelUpdates. The reported number of automatic additions is the
        number of pending additions. */
    method Check(force: bool, allowAutoApply: bool, now: int, minInterval: int, fetched: Option<seq<string>>,
                 matches: Matcher)
      returns (outcome: CheckOutcome)
      modifies this
      ensures Value() == AfterCheck(old(Value()), force, allowAutoApply, now, minInterval, fetched, matches)
      ensures outcome.Throttled? <==>
                !force && old(settings).lastCheck > 0 && now - old(settings).lastCheck < minInterval
      ensures outcome.Throttled? ==> Value() == old(Value())
      ensures outcome.FetchFailed? ==> Value() == old(Value()).(settings := old(settings).(lastCheck := now))
      ensures outcome.FetchFailed? <==> !outcome.Throttled? && fetched.None?
      ensures outcome.Checked? ==>
                var found := DetectFor(old(Value()), fetched.value, matches).add;
                && outcome.autoAdded == (if allowAutoApply && settings.autoSync then |found| else 0)
                && (outcome.modelsChanged <==> outcome.autoAdded > 0)
    {
      var c := Value();
      if !force {
        if settings.lastCheck > 0 && now - settings.lastCheck < minInterval {
          return Throttled;
        }
      }
      settings := settings.(lastCheck := now);
      if fetched.None? {
        return FetchFailed;
      }
      var add, remove := CollectPending(GetModels(c.models), fetched.value, c.settings.ignored, c.mapping, matches);
      var modelsChanged, autoAdded := false, 0;
      if allowAutoApply && settings.autoSync && |add| > 0 {
        var origin := LocalNames(c);
        var merged := Merge(origin, add);
        UnionOfNew(c, fetched.value, matches);
        if |merged| > |origin| {
          models := Join(merged, COMMA);
          autoAdded := |merged| - |origin|;
          modelsChanged := true;
        }
        settings := settings.(detected := []);
      } else {
        settings := settings.(detected := add);
      }
      settings := settings.(removed := remove);
      return Checked(modelsChanged, autoAdded);
    }
  }

  /** The computation of applyChannelUpstreamModelUpdates, before the row is written. */
  method ComputeApply(c: Channel, sel: Selection, now: int)
    returns (added: seq<string>, dropped: seq<string>, remaining: seq<string>, remainingRemove: seq<string>,
             modelsChanged: bool, models: string, settings: Settings)
    ensures Channel(models, settings, c.mapping) == AfterApply(c, sel, now)
    ensures added == Added(c, sel) && dropped == Removed(c, sel)
    ensures remaining == settings.detected && remainingRemove == settings.removed
    ensures modelsChanged <==> NextNames(c, sel) != LocalNames(c)
  {
    ApplyComputes(c, sel);
    var next := c.settings;
    var pendingAdd, pendingRemove := Normalize(next.detected), Normalize(next.removed);
    added := Intersect(sel.add, pendingAdd);
    var ignoreModels := Intersect(sel.ignore, pendingAdd);
    dropped := Intersect(sel.remove, pendingRemove);
    dropped := Subtract(dropped, added);
    var origin := LocalNames(c);
    var nextModels := ApplySelected(origin, added, dropped);
    modelsChanged := origin != nextModels;
    models := if modelsChanged then Join(nextModels, COMMA) else c.models;
    var rules := Merge(next.ignored, ignoreModels);
    if |added| > 0 {
      rules := Subtract(rules, added);
    }
    remaining := Subtract(pendingAdd, added + ignoreModels);
    remainingRemove := Subtract(pendingRemove, dropped);
    settings := Settings(rules, remaining, remainingRemove, now, next.autoSync);
  }

  // ---------------------------------------------------------------- facts about one selection

  /** What a selection picks is normal and drawn from the pending lists. */
  lemma SelectionFacts(c: Channel, sel: Selection)
    ensures Normal(Normalize(c.settings.detected)) && Normal(Normalize(c.settings.removed)) && Normal(LocalNames(c))
    ensures Normal(Added(c, sel)) && Normal(NewlyIgnored(c, sel)) && Normal(Removed(c, sel))
    ensures forall m | m in Added(c, sel) || m in NewlyIgnored(c, sel) :: m in Normalize(c.settings.detected)
    ensures forall m | m in Removed(c, sel) :: m in Normalize(c.settings.removed) && m !in Added(c, sel)
  {
    var add, remove := Normalize(c.settings.detected), Normalize(c.settings.removed);
    NormalizeIsNormal(c.settings.detected);
    NormalizeIsNormal(c.settings.removed);
    NormalizeIsNormal(GetModels(c.models));
    IntersectFacts(sel.add, add);
    IntersectFacts(sel.ignore, add);
    IntersectFacts(sel.remove, remove);
    var chosen, added := Intersect(sel.remove, remove), Added(c, sel);
    SubtractNormal(chosen, added);
    FilterNormal(chosen, m => m !in added);
    FilterMembers(chosen, m => m !in added);
  }

  /** The list expressions of the code are the declarative ones. */
  lemma ApplyComputes(c: Channel, sel: Selection)
    ensures var added, ignoredNow, removed := Added(c, sel), NewlyIgnored(c, sel), Removed(c, sel);
            var rules := Union(c.settings.ignored, ignoredNow);
            && ApplySelected(LocalNames(c), added, removed) == NextNames(c, sel)
            && Filter(rules, m => m !in added) == (if |added| > 0 then Subtract(rules, added) else rules)
            && Subtract(Normalize(c.settings.detected), added + ignoredNow)
               == Filter(Normalize(c.settings.detected), m => m !in added && m !in ignoredNow)
            && Subtract(Normalize(c.settings.removed), removed) == Filter(Normalize(c.settings.removed), m => m !in removed)
  {
    var origin, added, ignoredNow, removed := LocalNames(c), Added(c, sel), NewlyIgnored(c, sel), Removed(c, sel);
    var rules := Union(c.settings.ignored, ignoredNow);
    SelectionFacts(c, sel);
    SelectedIsSplice(origin, added, removed);
    FilterCongruent(origin, m => m !in removed || m in added, m => m !in removed);
    NormalizeIsNormal(c.settings.ignored + ignoredNow);
    SubtractNormal(rules, added);
    FilterAllIfEmpty(rules, added);
    SubtractBoth(Normalize(c.settings.detected), added, ignoredNow);
    SubtractNormal(Normalize(c.settings.removed), removed);
  }

  lemma IntersectFacts(base: seq<string>, allowed: seq<string>)
    requires Normal(allowed)
    ensures Normal(Intersect(base, allowed))
    ensures forall m | m in Intersect(base, allowed) :: m in allowed
  {
    NormalizeIsNormal(base);
    NormalizeFixed(allowed);
    FilterNormal(Normalize(base), m => m in Normalize(allowed));
    FilterMembers(Normalize(base), m => m in Normalize(allowed));
  }

  lemma FilterAllIfEmpty(xs: seq<string>, added: seq<string>)
    ensures added == [] ==> Filter(xs, m => m !in added) == xs
  {
    if added == [] {
      FilterAll(xs, m => m !in added);
    }
  }

  lemma SubtractBoth(base: seq<string>, a: seq<string>, b: seq<string>)
    requires Normal(base) && Normal(a) && Normal(b)
    ensures Subtract(base, a + b) == Filter(base, m => m !in a && m !in b)
  {
    NormalizeFixed(base);
    NormalizeFixed(a);
    NormalizeFixed(b);
    NormalizeIsNormal(a);
    NormalizeIsNormal(b);
    NormalizeIsNormal(a + b);
    forall m ensures Listed(a + b, m) <==> Listed(a, m) || Listed(b, m) {
      if Listed(a + b, m) {
        var x :| x in a + b && TrimSpace(x) == m;
        assert x in a || x in b;
      }
    }
    FilterCongruent(base, m => m !in Normalize(a + b), m => m !in a && m !in b);
  }

  /** Pending additions are new to the local list, so merging appends all of them. */
  lemma UnionOfNew(c: Channel, upstream: seq<string>, matches: Matcher)
    ensures var add := DetectFor(c, upstream, matches).add;
            Normal(add) && Union(LocalNames(c), add) == LocalNames(c) + add
  {
    var l, add := LocalNames(c), DetectFor(c, upstream, matches).add;
    DetectFacts(c, upstream, matches);
    NormalizeIsNormal(GetModels(c.models));
    NormalizeFixed(l);
    NormalizeFixed(add);
    UnionIsAppend(l, add);
    FilterCongruent(add, m => m !in Normalize(l), m => m !in l);
    FilterAll(add, m => m !in l);
  }

  lemma DetectFacts(c: Channel, upstream: seq<string>, matches: Matcher)
    ensures var d := DetectFor(c, upstream, matches);
            && Normal(d.add) && Normal(d.remove)
            && (forall m :: m in d.add <==>
                  (m in Normalize(upstream)
                   && Addable(LocalNames(c), c.mapping.Values, Normalize(c.settings.ignored), matches, m)))
            && (forall m :: m in d.remove <==> m in LocalNames(c) && Removable(Normalize(upstream), c.mapping.Keys, m))
  {
    var l, u, rules := LocalNames(c), Normalize(upstream), Normalize(c.settings.ignored);
    NormalizeIsNormal(GetModels(c.models));
    NormalizeIsNormal(upstream);
    FilterNormal(u, m => Addable(l, c.mapping.Values, rules, matches, m));
    FilterMembers(u, m => Addable(l, c.mapping.Values, rules, matches, m));
    FilterNormal(l, m => Removable(u, c.mapping.Keys, m));
    FilterMembers(l, m => Removable(u, c.mapping.Keys, m));
  }

  // ---------------------------------------------------------------- what is stored, read off the inputs

  /** Some rule of the list, up to surrounding white space, is the name itself or a pattern that matches it. */
  ghost predicate RuledOut(rules: seq<string>, name: string, matches: Matcher) {
    exists rule :: Listed(rules, rule)
                   && (if "regex:" <= rule then matches(TrimSpace(rule[6..]), name) else rule == name)
  }

  lemma IgnoredIsRuledOut(rules: seq<string>, name: string, matches: Matcher)
    ensures Ignored(Normalize(rules), name, matches) <==> RuledOut(rules, name, matches)
  {
    NormalizeIsNormal(rules);
    if Ignored(Normalize(rules), name, matches) {
      var rule :| rule in Normalize(rules) && RuleIgnores(rule, name, matches);
      assert Listed(rules, rule);
    }
    if RuledOut(rules, name, matches) {
      var rule :| Listed(rules, rule)
                  && (if "regex:" <= rule then matches(TrimSpace(rule[6..]), name) else rule == name);
      assert RuleIgnores(rule, name, matches);
    }
  }

  /** A detection finds exactly the upstream names that are not served, not the target of a redirect and not
      ruled out, and exactly the served names that the upstream lacks and that no redirect starts from. */
  lemma DetectionFinds(c: Channel, upstream: seq<string>, matches: Matcher, m: string)
    ensures var found, served := DetectFor(c, upstream, matches), GetModels(c.models);
            && (m in found.add <==>
                  Listed(upstream, m) && !Listed(served, m) && m !in c.mapping.Values
                  && !RuledOut(c.settings.ignored, m, matches))
            && (m in found.remove <==> Listed(served, m) && !Listed(upstream, m) && m !in c.mapping.Keys)
  {
    DetectFacts(c, upstream, matches);
    NormalizeMember(upstream, m);
    NormalizeMember(GetModels(c.models), m);
    IgnoredIsRuledOut(c.settings.ignored, m, matches);
  }

  /** A check that is neither throttled nor fails and adopts nothing stores what it detects: the pending lists
      are those of a detection against the fetched names, and nothing else changes but the time. */
  lemma CheckStoresDetection(c: Channel, force: bool, allowAutoApply: bool, now: int, minInterval: int,
                             fetched: seq<string>, matches: Matcher)
    requires force || c.settings.lastCheck <= 0 || now - c.settings.lastCheck >= minInterval
    requires !allowAutoApply || !c.settings.autoSync || DetectFor(c, fetched, matches).add == []
    ensures var after := AfterCheck(c, force, allowAutoApply, now, minInterval, Some(fetched), matches);
            && CameFrom(after, fetched, matches)
            && after.models == c.models && after.mapping == c.mapping && after.settings.lastCheck == now
            && after.settings.ignored == c.settings.ignored && after.settings.autoSync == c.settings.autoSync
    ensures var after := AfterCheck(c, force, allowAutoApply, now, minInterval, Some(fetched), matches);
            var served := GetModels(c.models);
            && Normal(after.settings.detected) && Normal(after.settings.removed)
            && (forall m :: m in after.settings.detected <==>
                  (Listed(fetched, m) && !Listed(served, m) && m !in c.mapping.Values
                   && !RuledOut(c.settings.ignored, m, matches)))
            && (forall m :: m in after.settings.removed <==>
                  Listed(served, m) && !Listed(fetched, m) && m !in c.mapping.Keys)
  {
    DetectFacts(c, fetched, matches);
    forall m
      ensures var found, served := DetectFor(c, fetched, matches), GetModels(c.models);
              && (m in found.add <==>
                    Listed(fetched, m) && !Listed(served, m) && m !in c.mapping.Values
                    && !RuledOut(c.settings.ignored, m, matches))
              && (m in found.remove <==> Listed(served, m) && !Listed(fetched, m) && m !in c.mapping.Keys)
    {
      DetectionFinds(c, fetched, matches, m);
    }
  }

  /** Selected from the pending list `pending`. */
  ghost predicate Chosen(selected: seq<string>, pending: seq<string>, m: string) {
    Listed(selected, m) && Listed(pending, m)
  }

  lemma IntersectMember(base: seq<string>, allowed: seq<string>, m: string)
    ensures m in Intersect(base, Normalize(allowed)) <==> Chosen(base, allowed, m)
  {
    NormalizeIsNormal(allowed);
    NormalizeFixed(Normalize(allowed));
    NormalizeMember(base, m);
    NormalizeMember(allowed, m);
    FilterMember(Normalize(base), x => x in Normalize(Normalize(allowed)), m);
  }

  /** What applying a selection picks, by the names selected and the names pending. */
  lemma PickedMember(c: Channel, sel: Selection, m: string)
    ensures m in Added(c, sel) <==> Chosen(sel.add, c.settings.detected, m)
    ensures m in NewlyIgnored(c, sel) <==> Chosen(sel.ignore, c.settings.detected, m)
    ensures m in Removed(c, sel) <==>
            Chosen(sel.remove, c.settings.removed, m) && !Chosen(sel.add, c.settings.detected, m)
  {
    IntersectMember(sel.add, c.settings.detected, m);
    IntersectMember(sel.ignore, c.settings.detected, m);
    IntersectMember(sel.remove, c.settings.removed, m);
    var chosen, added := Intersect(sel.remove, Normalize(c.settings.removed)), Added(c, sel);
    NormalizeIsNormal(c.settings.detected);
    NormalizeIsNormal(c.settings.removed);
    IntersectFacts(sel.remove, Normalize(c.settings.removed));
    IntersectFacts(sel.add, Normalize(c.settings.detected));
    SubtractNormal(chosen, added);
    FilterMember(chosen, x => x !in added, m);
  }

  /** Applying a selection, name by name. Added names are served and no longer ruled out; ignored ones become
      rules; both are no longer pending. Removed names are neither served nor pending. The rest stays. */
  lemma ApplyMembers(c: Channel, sel: Selection, now: int, m: string)
    ensures var was, next := c.settings, AfterApply(c, sel, now).settings;
            var added, ignored := Chosen(sel.add, was.detected, m), Chosen(sel.ignore, was.detected, m);
            var removed := Chosen(sel.remove, was.removed, m) && !added;
            && (m in next.ignored <==> (Listed(was.ignored, m) || ignored) && !added)
            && (m in next.detected <==> Listed(was.detected, m) && !added && !ignored)
            && (m in next.removed <==> Listed(was.removed, m) && !removed)
            && (m in NextNames(c, sel) <==> (Listed(GetModels(c.models), m) && !removed) || added)
            && next.lastCheck == now && next.autoSync == was.autoSync
  {
    var added, ignoredNow, removed := Added(c, sel), NewlyIgnored(c, sel), Removed(c, sel);
    PickedMember(c, sel, m);
    NormalizeMember(c.settings.detected, m);
    NormalizeMember(c.settings.removed, m);
    NormalizeMember(GetModels(c.models), m);
    FilterMember(Normalize(c.settings.detected), x => x !in added && x !in ignoredNow, m);
    FilterMember(Normalize(c.settings.removed), x => x !in removed, m);
    FilterMember(LocalNames(c), x => x !in removed, m);
    FilterMember(added, x => x !in LocalNames(c), m);
    FilterMember(Union(c.settings.ignored, ignoredNow), x => x !in added, m);
    RulesMember(c.settings.ignored, ignoredNow, m);
    SelectionFacts(c, sel);
  }

  lemma RulesMember(rules: seq<string>, more: seq<string>, m: string)
    ensures m in Union(rules, more) <==> Listed(rules, m) || Listed(more, m)
  {
    NormalizeMember(rules + more, m);
    if Listed(rules + more, m) {
      var x :| x in rules + more && TrimSpace(x) == m;
      assert x in rules || x in more;
    }
  }
}
