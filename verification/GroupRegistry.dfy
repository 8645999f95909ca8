/**
 The registry of process groups (`_world`): what split_group adds to it and what
 _abort_process_group removes. Groups are identified by numbers.
 */
module GroupRegistry {
  import opened Wrappers
  import opened Sums

  type Pg = nat

  /** The maps of `_world` that the two functions touch. */
  datatype World = World(
    defaultPg: Option<Pg>,
    pgMap: map<Pg, string>,
    pgNames: map<Pg, string>,
    pgGroupRanks: map<Pg, map<int, int>>,
    pgBackendConfig: map<Pg, string>,
    pgToTag: map<Pg, string>,
    tagsToPg: map<string, seq<Pg>>,
    pgCoalesceState: set<Pg>,
    groupCount: nat)

  function Listed(w: World, tag: string): seq<Pg> { if tag in w.tagsToPg then w.tagsToPg[tag] else [] }

  predicate IsDefaultTag(tag: string) { "ptd:" <= tag }

  /** `list` holds, once each, exactly the groups with this tag. */
  ghost predicate TagExact(w: World, tag: string) {
    Distinct(Listed(w, tag)) && forall pg :: pg in Listed(w, tag) <==> pg in w.pgToTag && w.pgToTag[pg] == tag
  }

  /** The key sets are equal, and tags and groups are inverse to each other on non-empty tags. */
  ghost predicate Valid(w: World) {
    && w.pgMap.Keys == w.pgNames.Keys == w.pgGroupRanks.Keys == w.pgBackendConfig.Keys == w.pgToTag.Keys
    && w.pgCoalesceState <= w.pgMap.Keys
    && (forall pg :: pg in w.pgToTag ==> w.pgToTag[pg] != "")
    && (forall tag :: tag != "" ==> TagExact(w, tag))
    && Distinct(Listed(w, ""))
    && (forall pg :: pg in Listed(w, "") ==> pg in w.pgToTag && IsDefaultTag(w.pgToTag[pg]))
  }

  /** `list.remove(pg)`: the first occurrence goes. */
  function RemoveFirst(s: seq<Pg>, pg: Pg): seq<Pg> {
    if s == [] then [] else if s[0] == pg then s[1..] else [s[0]] + RemoveFirst(s[1..], pg)
  }

  lemma {:induction false} RemoveFirstMeaning(s: seq<Pg>, pg: Pg)
    requires Distinct(s)
    ensures Distinct(RemoveFirst(s, pg))
    ensures forall x :: x in RemoveFirst(s, pg) <==> x in s && x != pg
  {
    if s != [] {
      RemoveFirstMeaning(s[1..], pg);
      assert s == [s[0]] + s[1..];
      assert s[0] !in s[1..];
    }
  }

  datatype Error = InvalidGroup | NoDefaultGroup | MissingKey

  /** The update of the global state at the end of split_group. */
  function Register(w: World, pg: Pg, backend: string, name: string, config: string, ranks: map<int, int>): World {
    var tag := "ptd:" + name;
    w.(pgMap := w.pgMap[pg := backend], pgNames := w.pgNames[pg := name], pgBackendConfig := w.pgBackendConfig[pg := config],
       tagsToPg := w.tagsToPg[tag := Listed(w, tag) + [pg]], pgToTag := w.pgToTag[pg := tag],
       pgGroupRanks := w.pgGroupRanks[pg := ranks])
  }

  /** The `try` block: an absent list or an absent group ends it early, without an error. */
  function Untag(tags: map<string, seq<Pg>>, tag: string, pg: Pg): map<string, seq<Pg>> {
    if tag !in tags || pg !in tags[tag] then tags else
      var t := tags[tag := RemoveFirst(tags[tag], pg)];
      if IsDefaultTag(tag) && "" in t && pg in t[""] then t["" := RemoveFirst(t[""], pg)] else t
  }

  /** Aborting one group: every `del` needs its key. */
  function Remove(w: World, pg: Pg): Result<World, Error> {
    if pg !in w.pgMap || pg !in w.pgNames || pg !in w.pgGroupRanks || pg !in w.pgBackendConfig || pg !in w.pgToTag
    then Err(MissingKey)
    else Ok(w.(pgMap := w.pgMap - {pg}, pgNames := w.pgNames - {pg}, pgGroupRanks := w.pgGroupRanks - {pg},
               pgBackendConfig := w.pgBackendConfig - {pg}, pgCoalesceState := w.pgCoalesceState - {pg},
               pgToTag := w.pgToTag - {pg}, tagsToPg := Untag(w.tagsToPg, w.pgToTag[pg], pg)))
  }

  /** Aborting the default group by name: everything is cleared. */
  function Clear(w: World): World { World(None, map[], map[], map[], map[], map[], map[], {}, 0) }

  /** _abort_process_group for a group that is a member here; `hasBackend` says whether it has a BCCL backend. */
  function Abort(w: World, group: Option<Pg>, hasBackend: bool): Result<World, Error> {
    var pg := if group.Some? then group else w.defaultPg;
    if pg.None? then Err(NoDefaultGroup)
    else if pg.value !in w.pgMap then Err(InvalidGroup)
    else if !hasBackend then Ok(w)
    else if group == w.defaultPg then Ok(Clear(w))
    else Remove(w, pg.value)
  }

  class Registry {
    var w: World

    constructor (w: World)
      ensures this.w == w
    {
      this.w := w;
    }

    method RegisterSplit(pg: Pg, backend: string, name: string, config: string, ranks: map<int, int>)
      requires Valid(w) && pg !in w.pgMap
      modifies this
      ensures w == Register(old(w), pg, backend, name, config, ranks) && Valid(w)
    {
      RegisterKeepsValid(w, pg, backend, name, config, ranks);
      var tag := "ptd:" + name;
      w := w.(pgMap := w.pgMap[pg := backend], pgNames := w.pgNames[pg := name]);
      w := w.(pgBackendConfig := w.pgBackendConfig[pg := config]);
      var listed := if tag in w.tagsToPg then w.tagsToPg[tag] else [];
      w := w.(tagsToPg := w.tagsToPg[tag := listed + [pg]]);
      w := w.(pgToTag := w.pgToTag[pg := tag], pgGroupRanks := w.pgGroupRanks[pg := ranks]);
    }

    /** No `del` ever fails on a valid registry, and the registry stays valid. */
    method AbortGroup(group: Option<Pg>, hasBackend: bool) returns (error: Option<Error>)
      requires Valid(w)
      modifies this
      ensures match Abort(old(w), group, hasBackend)
              case Ok(w') => error == None && w == w'
              case Err(e) => error == Some(e) && w == old(w) && e != MissingKey
      ensures Valid(w)
    {
      AbortKeepsValid(w, group, hasBackend);
      error := None;
      var pg := if group.Some? then group else w.defaultPg;
      if pg.None? { return Some(NoDefaultGroup); }
      if pg.value !in w.pgMap { return Some(InvalidGroup); }
      if !hasBackend { return None; }
      if group == w.defaultPg {
        w := Clear(w);
      } else {
        var g := pg.value;
        var tag := w.pgToTag[g];
        w := w.(pgMap := w.pgMap - {g}, pgNames := w.pgNames - {g}, pgGroupRanks := w.pgGroupRanks - {g});
        w := w.(pgBackendConfig := w.pgBackendConfig - {g}, pgCoalesceState := w.pgCoalesceState - {g});
        w := w.(pgToTag := w.pgToTag - {g});
        w := w.(tagsToPg := Untag(w.tagsToPg, tag, g));
      }
    }
  }

  // ---------------------------------------------------------------- what every operation keeps

  lemma TagAdded(w: World, w': World, tag: string, own: string, pg: Pg)
    requires TagExact(w, tag) && pg !in w.pgToTag && w'.pgToTag == w.pgToTag[pg := own]
    requires Listed(w', tag) == if tag == own then Listed(w, tag) + [pg] else Listed(w, tag)
    ensures TagExact(w', tag)
  {
  }

  lemma TagsAdded(w: World, w': World, own: string, pg: Pg)
    requires forall tag :: tag != "" ==> TagExact(w, tag)
    requires pg !in w.pgToTag && w'.pgToTag == w.pgToTag[pg := own]
    requires w'.tagsToPg == w.tagsToPg[own := Listed(w, own) + [pg]]
    ensures forall tag :: tag != "" ==> TagExact(w', tag)
  {
    forall tag | tag != "" ensures TagExact(w', tag) { TagAdded(w, w', tag, own, pg); }
  }

  lemma RegisterKeepsValid(w: World, pg: Pg, backend: string, name: string, config: string, ranks: map<int, int>)
    requires Valid(w) && pg !in w.pgMap
    ensures Valid(Register(w, pg, backend, name, config, ranks))
  {
    var w' := Register(w, pg, backend, name, config, ranks);
    var own := "ptd:" + name;
    assert pg !in w.pgToTag.Keys;
    TagsAdded(w, w', own, pg);
    assert Listed(w', "") == Listed(w, "");
  }

  lemma UntagMeaning(w: World, pg: Pg, tag: string)
    requires Valid(w) && pg in w.pgToTag && tag != ""
    ensures var t := Untag(w.tagsToPg, w.pgToTag[pg], pg); var s := if tag in t then t[tag] else [];
      Distinct(s) && forall x :: x in s <==> x in Listed(w, tag) && x != pg
  {
    var own := w.pgToTag[pg];
    assert TagExact(w, own) && TagExact(w, tag);
    RemoveFirstMeaning(Listed(w, tag), pg);
    assert pg in Listed(w, own);
  }

  lemma UntagDefault(w: World, pg: Pg)
    requires Valid(w) && pg in w.pgToTag
    ensures var t := Untag(w.tagsToPg, w.pgToTag[pg], pg); var s := if "" in t then t[""] else [];
      Distinct(s) && forall x :: x in s <==> x in Listed(w, "") && x != pg
  {
    var own := w.pgToTag[pg];
    assert TagExact(w, own);
    RemoveFirstMeaning(Listed(w, ""), pg);
    assert pg in Listed(w, own);
  }

  lemma RemoveKeepsValid(w: World, pg: Pg)
    requires Valid(w) && pg in w.pgMap
    ensures Remove(w, pg).Ok? && Valid(Remove(w, pg).value)
    ensures forall tag :: pg !in Listed(Remove(w, pg).value, tag)
  {
    assert pg in w.pgMap.Keys;
    var w' := Remove(w, pg).value;
    forall tag | tag != "" ensures TagExact(w', tag) && pg !in Listed(w', tag) {
      assert TagExact(w, tag);
      UntagMeaning(w, pg, tag);
    }
    UntagDefault(w, pg);
  }

  lemma AbortKeepsValid(w: World, group: Option<Pg>, hasBackend: bool)
    requires Valid(w)
    ensures match Abort(w, group, hasBackend) case Ok(w') => Valid(w') case Err(e) => e != MissingKey
  {
    var pg := if group.Some? then group else w.defaultPg;
    if pg.Some? && pg.value in w.pgMap { RemoveKeepsValid(w, pg.value); }
  }

  /** The group is in none of the maps. */
  ghost predicate Absent(w: World, pg: Pg) {
    && pg !in w.pgMap && pg !in w.pgNames && pg !in w.pgGroupRanks && pg !in w.pgBackendConfig && pg !in w.pgToTag
    && pg !in w.pgCoalesceState && forall tag :: pg !in Listed(w, tag)
  }

  /** An aborted group leaves no trace. */
  lemma AbortLeavesNoTrace(w: World, pg: Pg)
    requires Valid(w) && pg in w.pgMap
    ensures Abort(w, Some(pg), true).Ok? && Absent(Abort(w, Some(pg), true).value, pg)
  {
    RemoveKeepsValid(w, pg);
  }

  datatype Op = DoRegister(pg: Pg, backend: string, name: string, config: string, ranks: map<int, int>)
              | DoAbort(group: Option<Pg>, hasBackend: bool)

  /** A call that fails leaves the registry alone; a new group is one not registered yet. */
  function Apply(w: World, op: Op): World {
    match op
    case DoRegister(pg, backend, name, config, ranks) => if pg in w.pgMap then w else Register(w, pg, backend, name, config, ranks)
    case DoAbort(group, hasBackend) => match Abort(w, group, hasBackend) case Ok(w') => w' case Err(_) => w
  }

  function ApplyAll(w: World, ops: seq<Op>): World {
    if ops == [] then w else Apply(ApplyAll(w, ops[..|ops|-1]), ops[|ops|-1])
  }

  /** Every sequence of registrations and aborts keeps the maps in step. */
  lemma {:induction false} RegistryStaysValid(w: World, ops: seq<Op>)
    requires Valid(w)
    ensures Valid(ApplyAll(w, ops))
  {
    if ops != [] {
      var pre, op := ops[..|ops|-1], ops[|ops|-1];
      RegistryStaysValid(w, pre);
      var u := ApplyAll(w, pre);
      match op
      case DoRegister(pg, backend, name, config, ranks) =>
        if pg !in u.pgMap { RegisterKeepsValid(u, pg, backend, name, config, ranks); }
      case DoAbort(group, hasBackend) => AbortKeepsValid(u, group, hasBackend);
    }
  }

  /**
   Calling abort without a group does not clear the registry, unlike naming the default group:
   only the default group goes, and it stays recorded as the default.
   */
  lemma AbortWithoutGroup(w: World)
    requires Valid(w) && w.defaultPg.Some? && w.defaultPg.value in w.pgMap
    ensures var d := w.defaultPg.value;
      && Abort(w, Some(d), true) == Ok(World(None, map[], map[], map[], map[], map[], map[], {}, 0))
      && Abort(w, None, true).Ok? && Abort(w, None, true).value.pgMap == w.pgMap - {d}
      && Abort(w, None, true).value.defaultPg == Some(d)
      && Abort(Abort(w, None, true).value, None, true) == Err(InvalidGroup)
  {
    RemoveKeepsValid(w, w.defaultPg.value);
  }

  // ---------------------------------------------------------------- what an operation leaves alone

  /** Group `g` stands in both registries with the same name, ranks, backend, configuration, tag and coalescing state. */
  ghost predicate SameEntries(w: World, w': World, g: Pg) {
    && (g in w'.pgMap <==> g in w.pgMap) && (g in w.pgMap ==> g in w'.pgMap && w'.pgMap[g] == w.pgMap[g])
    && (g in w'.pgNames <==> g in w.pgNames) && (g in w.pgNames ==> g in w'.pgNames && w'.pgNames[g] == w.pgNames[g])
    && (g in w'.pgGroupRanks <==> g in w.pgGroupRanks)
    && (g in w.pgGroupRanks ==> g in w'.pgGroupRanks && w'.pgGroupRanks[g] == w.pgGroupRanks[g])
    && (g in w'.pgBackendConfig <==> g in w.pgBackendConfig)
    && (g in w.pgBackendConfig ==> g in w'.pgBackendConfig && w'.pgBackendConfig[g] == w.pgBackendConfig[g])
    && (g in w'.pgToTag <==> g in w.pgToTag) && (g in w.pgToTag ==> g in w'.pgToTag && w'.pgToTag[g] == w.pgToTag[g])
    && (g in w'.pgCoalesceState <==> g in w.pgCoalesceState)
    && forall tag :: g in Listed(w', tag) <==> g in Listed(w, tag)
  }

  /** Registration stores each value in its own map, tags the group with its name, and touches no other group. */
  lemma RegisterStores(w: World, pg: Pg, backend: string, name: string, config: string, ranks: map<int, int>, g: Pg)
    requires Valid(w) && pg !in w.pgMap && g != pg
    ensures var w' := Register(w, pg, backend, name, config, ranks);
      && pg in w'.pgMap && w'.pgMap[pg] == backend
      && pg in w'.pgNames && w'.pgNames[pg] == name
      && pg in w'.pgBackendConfig && w'.pgBackendConfig[pg] == config
      && pg in w'.pgGroupRanks && w'.pgGroupRanks[pg] == ranks
      && pg in w'.pgToTag && w'.pgToTag[pg] == "ptd:" + name && (forall tag :: pg in Listed(w', tag) <==> tag == "ptd:" + name)
      && SameEntries(w, w', g) && w'.defaultPg == w.defaultPg && w'.groupCount == w.groupCount
  {
    var w' := Register(w, pg, backend, name, config, ranks);
    assert pg !in w.pgToTag.Keys;
    forall tag ensures (pg in Listed(w', tag) <==> tag == "ptd:" + name) && (g in Listed(w', tag) <==> g in Listed(w, tag)) {
      if tag != "" { assert TagExact(w, tag); }
    }
  }

  lemma RemoveKeepsOthers(w: World, pg: Pg, g: Pg)
    requires Valid(w) && pg in w.pgMap && g != pg
    ensures Remove(w, pg).Ok? && SameEntries(w, Remove(w, pg).value, g)
    ensures Remove(w, pg).value.defaultPg == w.defaultPg && Remove(w, pg).value.groupCount == w.groupCount
  {
    RemoveKeepsValid(w, pg);
    assert pg in w.pgMap.Keys;
    var w' := Remove(w, pg).value;
    forall tag ensures g in Listed(w', tag) <==> g in Listed(w, tag) {
      if tag == "" { UntagDefault(w, pg); } else { UntagMeaning(w, pg, tag); }
    }
  }

  /**
   Aborting a group other than the default one leaves every other group as it was; without a
   backend, or on an error, everything stays.
   */
  lemma AbortKeepsOthers(w: World, pg: Pg, hasBackend: bool, g: Pg)
    requires Valid(w) && w.defaultPg != Some(pg) && g != pg
    ensures match Abort(w, Some(pg), hasBackend)
      case Err(e) => pg !in w.pgMap && e == InvalidGroup
      case Ok(w') => pg in w.pgMap && SameEntries(w, w', g) && w'.defaultPg == w.defaultPg && (!hasBackend ==> w' == w)
  {
    if pg in w.pgMap { RemoveKeepsOthers(w, pg, g); }
  }

  /** The errors: no group named and no default group, or one that is not registered; nothing else fails. */
  lemma AbortErrors(w: World, group: Option<Pg>, hasBackend: bool)
    requires Valid(w)
    ensures Abort(w, group, hasBackend) == Err(NoDefaultGroup) <==> group.None? && w.defaultPg.None?
    ensures Abort(w, group, hasBackend) == Err(InvalidGroup) <==>
      (group.Some? && group.value !in w.pgMap) || (group.None? && w.defaultPg.Some? && w.defaultPg.value !in w.pgMap)
    ensures Abort(w, group, hasBackend) != Err(MissingKey)
  {
    AbortKeepsValid(w, group, hasBackend);
  }

  lemma {:induction false} RemoveLast(s: seq<Pg>, pg: Pg)
    requires pg !in s
    ensures RemoveFirst(s + [pg], pg) == s
  {
    if s != [] {
      assert (s + [pg])[1..] == s[1..] + [pg];
      RemoveLast(s[1..], pg);
      assert s == [s[0]] + s[1..];
    }
  }

  lemma PutAndTake<V>(m: map<Pg, V>, k: Pg, v: V)
    requires k !in m
    ensures m[k := v] - {k} == m
  {
  }

  /** Taking a new tag entry out again leaves all lists as they were. */
  lemma UntagNew(w: World, pg: Pg, tag: string, t: map<string, seq<Pg>>)
    requires IsDefaultTag(tag) && pg !in Listed(w, tag) && pg !in Listed(w, "") && tag != ""
    requires t == Untag(w.tagsToPg[tag := Listed(w, tag) + [pg]], tag, pg)
    ensures forall x :: Listed(w.(tagsToPg := t), x) == Listed(w, x)
  {
    RemoveLast(Listed(w, tag), pg);
  }

  /** Registering a group and aborting it gives the registry back, but for an empty tag list. */
  lemma RegisterThenAbort(w: World, pg: Pg, backend: string, name: string, config: string, ranks: map<int, int>)
    requires Valid(w) && pg !in w.pgMap && w.defaultPg != Some(pg)
    ensures var r := Abort(Register(w, pg, backend, name, config, ranks), Some(pg), true);
      && r.Ok? && (forall tag :: Listed(r.value, tag) == Listed(w, tag))
      && r.value == w.(tagsToPg := r.value.tagsToPg)
  {
    var tag := "ptd:" + name;
    var t := Untag(w.tagsToPg[tag := Listed(w, tag) + [pg]], tag, pg);
    assert pg !in w.pgToTag.Keys && pg !in w.pgNames.Keys && pg !in w.pgGroupRanks.Keys && pg !in w.pgBackendConfig.Keys;
    assert pg !in w.pgCoalesceState && w.pgCoalesceState - {pg} == w.pgCoalesceState;
    assert TagExact(w, tag);
    UntagNew(w, pg, tag, t);
    PutAndTake(w.pgMap, pg, backend);
    PutAndTake(w.pgNames, pg, name);
    PutAndTake(w.pgBackendConfig, pg, config);
    PutAndTake(w.pgGroupRanks, pg, ranks);
    PutAndTake(w.pgToTag, pg, tag);
    assert Remove(Register(w, pg, backend, name, config, ranks), pg) == Ok(w.(tagsToPg := t));
  }
}
