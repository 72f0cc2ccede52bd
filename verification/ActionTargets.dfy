/** Action targets of a service and the resolution of actions: src/notifications/notification-action-targets.service.ts. */
module ActionTargets {
  import opened Prelude
  import opened UriText
  import opened ActionPaths

  type ServiceId = nat
  type Key = string

  /** The canonical form of a credential-free HTTPS origin, or nothing when a text is not one. */
  type Normalizer = Text -> Option<Text>

  /** A row of `notification_action_targets`, keyed by service and target key. */
  datatype Target = Target(
    baseUrl: Text, fallbackUrl: Option<Text>, allowedPaths: seq<Text>, allowedSchemes: seq<string>, active: bool)

  type Table = map<(ServiceId, Key), Target>

  datatype Spec = Spec(
    key: Key, baseUrl: Text, fallbackUrl: Option<Text>, allowedPaths: seq<Text>, allowedSchemes: seq<string>)

  datatype Action = Action(key: Key, path: Text)

  datatype Snapshot = Snapshot(key: Key, path: Text, baseUrl: Text, fallbackUrl: Option<Text>, allowedSchemes: seq<string>)

  // ---------------------------------------------------------------- specifications

  predicate SchemeUnit(c: char) { 'a' <= c <= 'z' || '0' <= c <= '9' || c == '+' || c == '.' || c == '-' }

  predicate ValidScheme(scheme: string) {
    && 2 <= |scheme| <= 64 && 'a' <= scheme[0] <= 'z' && (forall c | c in scheme :: SchemeUnit(c))
    && scheme != "http" && scheme != "https"
  }

  predicate HasFallback(spec: Spec) { spec.fallbackUrl.Some? && spec.fallbackUrl.value != [] }

  predicate SpecOk(normalize: Normalizer, spec: Spec) {
    && normalize(spec.baseUrl).Some?
    && (HasFallback(spec) ==> normalize(spec.fallbackUrl.value).Some?)
    && (forall path | path in spec.allowedPaths :: ValidPathPattern(path))
    && (forall scheme | scheme in spec.allowedSchemes :: ValidScheme(scheme))
  }

  predicate SpecsOk(normalize: Normalizer, requested: seq<Spec>) {
    && (forall i, j | 0 <= i < j < |requested| :: requested[i].key != requested[j].key)
    && (forall i | 0 <= i < |requested| :: SpecOk(normalize, requested[i]))
  }

  function TargetOf(normalize: Normalizer, spec: Spec): Target
    requires SpecOk(normalize, spec)
  {
    Target(normalize(spec.baseUrl).value,
           if HasFallback(spec) then Some(normalize(spec.fallbackUrl.value).value) else None,
           Unique(spec.allowedPaths), Unique(spec.allowedSchemes), true)
  }

  function Keys(requested: seq<Spec>): set<Key> {
    set spec | spec in requested :: spec.key
  }

  /**
   * What an approved onboarding leaves: exactly the requested targets are active for the service, as
   * requested; its other targets are disabled but otherwise as they were, and no other service is touched.
   */
  ghost predicate Configured(normalize: Normalizer, before: Table, after: Table, service: ServiceId,
                             requested: seq<Spec>)
    requires SpecsOk(normalize, requested)
  {
    && (forall spec | spec in requested ::
          (service, spec.key) in after && after[(service, spec.key)] == TargetOf(normalize, spec))
    && (forall k | k in before && !(k.0 == service && k.1 in Keys(requested)) ::
          k in after && after[k] == if k.0 == service then before[k].(active := false) else before[k])
    && (forall k | k in after && k !in before :: k.0 == service && k.1 in Keys(requested))
  }

  // ---------------------------------------------------------------- resolving

  /** `resolve` for a given action; the URLs are left as base and path. */
  function Resolve(targets: Table, service: ServiceId, action: Action): Option<Snapshot> {
    var k := (service, action.key);
    if k !in targets || !targets[k].active then None
    else
      var target := targets[k];
      var path := ValidateActionPath(action.path);
      if path.None? || !(exists i | 0 <= i < |target.allowedPaths| :: PathMatches(target.allowedPaths[i], path.value)) then None
      else Some(Snapshot(action.key, path.value, target.baseUrl, target.fallbackUrl, target.allowedSchemes))
  }

  /** Every stored pattern is one the validator passed. */
  ghost predicate TableOk(targets: Table) {
    forall k | k in targets :: forall path | path in targets[k].allowedPaths :: ValidPathPattern(path)
  }

  /** The path lies where the pattern says, segment by decoded segment. */
  ghost predicate Within(pattern: Text, path: Text) {
    if EndsWith(pattern, WILDCARD) then
      Decode(PatternBase(pattern)).Some? && Decode(path).Some? && SegmentsOf(PatternBase(pattern)) <= SegmentsOf(path)
    else pattern == path
  }

  /**
   * An action resolves exactly when its target is active and its path is canonical and lies within one of
   * the target's patterns; the path handed on is the one that was given, and has no dot segments to remove.
   */
  lemma ResolvedActionsAreConfined(targets: Table, service: ServiceId, action: Action)
    requires TableOk(targets)
    ensures Resolve(targets, service, action).Some? <==>
              var k := (service, action.key);
              && k in targets && targets[k].active && ValidateActionPath(action.path).Some?
              && exists pattern :: pattern in targets[k].allowedPaths && Within(pattern, action.path)
    ensures Resolve(targets, service, action).Some? ==>
              && RemoveDots(action.path, []) == action.path
              && var target := targets[(service, action.key)];
                 Resolve(targets, service, action).value
                 == Snapshot(action.key, action.path, target.baseUrl, target.fallbackUrl, target.allowedSchemes)
  {
    var k := (service, action.key);
    if k in targets && ValidateActionPath(action.path).Some? {
      DotRemovalKeepsAcceptedPaths(action.path);
      forall pattern | pattern in targets[k].allowedPaths
        ensures PathMatches(pattern, action.path) <==> Within(pattern, action.path)
      {
        if EndsWith(pattern, WILDCARD) { WildcardMatchesSubtree(pattern, action.path); }
      }
    }
  }

  /** Schemes have two to 64 lower-case letters, digits, pluses, periods and hyphens, a letter first, and are not web schemes. */
  lemma SchemesAllowed(scheme: string)
    ensures ValidScheme(scheme) <==>
      && 2 <= |scheme| <= 64 && 'a' <= scheme[0] <= 'z'
      && (forall i | 0 <= i < |scheme| ::
            'a' <= scheme[i] <= 'z' || '0' <= scheme[i] <= '9' || scheme[i] == '+' || scheme[i] == '.' || scheme[i] == '-')
      && scheme != "http" && scheme != "https"
  {
    assert (forall c | c in scheme :: SchemeUnit(c)) <==> forall i | 0 <= i < |scheme| :: SchemeUnit(scheme[i]) by {
      forall i | 0 <= i < |scheme| ensures scheme[i] in scheme {}
    }
  }

  /** A target has the normalized origins, each path and scheme of its specification once, and is active. */
  lemma TargetKeepsSpec(normalize: Normalizer, spec: Spec)
    requires SpecOk(normalize, spec)
    ensures var target := TargetOf(normalize, spec);
      && normalize(spec.baseUrl) == Some(target.baseUrl) && target.active
      && (if spec.fallbackUrl == None || spec.fallbackUrl == Some([]) then target.fallbackUrl == None
          else target.fallbackUrl.Some? && normalize(spec.fallbackUrl.value) == target.fallbackUrl)
      && Distinct(target.allowedPaths) && (forall path :: path in target.allowedPaths <==> path in spec.allowedPaths)
      && Distinct(target.allowedSchemes) && (forall scheme :: scheme in target.allowedSchemes <==> scheme in spec.allowedSchemes)
  {
    UniqueKeeps(spec.allowedPaths);
    UniqueKeeps(spec.allowedSchemes);
  }

  lemma ConfiguredKeepsTable(normalize: Normalizer, before: Table, after: Table, service: ServiceId,
                             requested: seq<Spec>)
    requires SpecsOk(normalize, requested) && TableOk(before) && Configured(normalize, before, after, service, requested)
    ensures TableOk(after)
  {
    forall k | k in after ensures forall path | path in after[k].allowedPaths :: ValidPathPattern(path) {
      if spec :| spec in requested && k == (service, spec.key) {
        UniqueKeeps(spec.allowedPaths);
      } else {
        assert after[k].allowedPaths == before[k].allowedPaths;
      }
    }
  }

  lemma SpecsExtend(normalize: Normalizer, specs: seq<Spec>, spec: Spec)
    requires SpecsOk(normalize, specs)
    ensures SpecsOk(normalize, specs + [spec]) <==> spec.key !in Keys(specs) && SpecOk(normalize, spec)
  {
    var all := specs + [spec];
    assert all[|specs|] == spec;
    if spec.key in Keys(specs) {
      var other :| other in specs && other.key == spec.key;
      var i :| 0 <= i < |specs| && specs[i] == other;
      assert all[i] == other;
    }
  }

  lemma SpecsPrefix(normalize: Normalizer, specs: seq<Spec>, n: nat)
    requires n <= |specs|
    ensures SpecsOk(normalize, specs) ==> SpecsOk(normalize, specs[..n])
  {
  }

  /** The targets of `keys` switched to a status, the rest untouched. */
  function Disabled(targets: Table, chosen: set<(ServiceId, Key)>): Table {
    map k | k in targets :: if k in chosen then targets[k].(active := false) else targets[k]
  }

  // ---------------------------------------------------------------- the service

  class NotificationActionTargetsService {
    var targets: Table
    const normalizedHttpsBase: Normalizer

    ghost predicate Valid() reads this { TableOk(targets) }

    constructor (normalizedHttpsBase: Normalizer)
      ensures Valid() && targets == map[] && this.normalizedHttpsBase == normalizedHttpsBase
    {
      targets, this.normalizedHttpsBase := map[], normalizedHttpsBase;
    }

    method ValidateTarget(target: Spec) returns (ok: bool)
      ensures ok <==> SpecOk(normalizedHttpsBase, target)
    {
      if normalizedHttpsBase(target.baseUrl).None? { return false; }
      if HasFallback(target) && normalizedHttpsBase(target.fallbackUrl.value).None? { return false; }
      if exists j | 0 <= j < |target.allowedPaths| :: !ValidPathPattern(target.allowedPaths[j]) { return false; }
      if exists j | 0 <= j < |target.allowedSchemes| :: !ValidScheme(target.allowedSchemes[j]) { return false; }
      return true;
    }

    method ValidateRequestedSpec(requested: seq<Spec>) returns (ok: bool)
      ensures ok <==> SpecsOk(normalizedHttpsBase, requested)
    {
      var keys: set<Key> := {};
      ok := true;
      for i := 0 to |requested|
        invariant ok && keys == Keys(requested[..i]) && SpecsOk(normalizedHttpsBase, requested[..i])
      {
        var target := requested[i];
        SpecsPrefix(normalizedHttpsBase, requested, i + 1);
        SpecsExtend(normalizedHttpsBase, requested[..i], target);
        assert requested[..i + 1] == requested[..i] + [target];
        ok := target.key !in keys;
        if ok { ok := ValidateTarget(target); }
        if !ok { return; }
        keys := keys + {target.key};
      }
      assert requested[..|requested|] == requested;
    }

    method ConfigureFromApprovedOnboarding(service: ServiceId, requested: seq<Spec>) returns (ok: bool)
      requires Valid()
      modifies this`targets
      ensures Valid()
      ensures ok <==> SpecsOk(normalizedHttpsBase, requested)
      ensures !ok ==> targets == old(targets)
      ensures ok ==> Configured(normalizedHttpsBase, old(targets), targets, service, requested)
      ensures ok ==> forall key :: (service, key) in targets && targets[(service, key)].active <==> key in Keys(requested)
      ensures forall k: (ServiceId, Key) | k.0 != service ::
        (k in targets <==> k in old(targets)) && (k in targets ==> targets[k] == old(targets)[k])
    {
      ok := ValidateRequestedSpec(requested);
      if !ok { return; }
      var keys := Keys(requested);
      targets := Disabled(targets, set key | key in keys :: (service, key));
      var existing := targets;
      SaveTargets(service, requested, keys);
      targets := Disabled(targets, set k | k in existing && k.0 == service && k.1 !in keys);
      ConfiguredKeepsTable(normalizedHttpsBase, old(targets), targets, service, requested);
    }

    /** Each requested target is created or overwritten. */
    method SaveTargets(service: ServiceId, requested: seq<Spec>, ghost keys: set<Key>)
      requires SpecsOk(normalizedHttpsBase, requested) && keys == Keys(requested)
      modifies this`targets
      ensures forall spec | spec in requested ::
        (service, spec.key) in targets && targets[(service, spec.key)] == TargetOf(normalizedHttpsBase, spec)
      ensures forall k: (ServiceId, Key) | !(k.0 == service && k.1 in keys) ::
        (k in targets <==> k in old(targets)) && (k in targets ==> targets[k] == old(targets)[k])
    {
      for i := 0 to |requested|
        invariant forall j | 0 <= j < i ::
          (service, requested[j].key) in targets
          && targets[(service, requested[j].key)] == TargetOf(normalizedHttpsBase, requested[j])
        invariant forall k: (ServiceId, Key) | !(k.0 == service && k.1 in keys) ::
          (k in targets <==> k in old(targets)) && (k in targets ==> targets[k] == old(targets)[k])
      {
        var spec := requested[i];
        var target := Target(normalizedHttpsBase(spec.baseUrl).value,
                             if HasFallback(spec) then normalizedHttpsBase(spec.fallbackUrl.value) else None,
                             Unique(spec.allowedPaths), Unique(spec.allowedSchemes), true);
        assert spec in requested;
        targets := targets[(service, spec.key) := target];
      }
    }

    method SetStatus(service: ServiceId, key: Key, active: bool) returns (found: bool)
      requires Valid()
      modifies this`targets
      ensures Valid()
      ensures found <==> (service, key) in old(targets)
      ensures targets ==
        if found then old(targets)[(service, key) := old(targets)[(service, key)].(active := active)] else old(targets)
    {
      if (service, key) !in targets { return false; }
      targets := targets[(service, key) := targets[(service, key)].(active := active)];
      return true;
    }
  }
}
