/** The evolution gate: which proposals may patch the runtime configuration on their own, and what they can do to it. */
module EvolutionGate {
  import opened PyLists
  import opened JsonMerge

  datatype Proposal = Proposal(id: string, patch: Json, risk: string)

  datatype ProposalResult = ProposalResult(proposal: string, applied: bool, rejected: bool, blockedFields: set<string>)

  // ----- the key walk

  /** The locked names used as a key anywhere in the nested dictionaries of `j`. */
  function LockedKeys(j: Json, locked: set<string>): set<string> {
    if j.Obj? then
      (set k | k in j.fields && k in locked) + (set k, x | k in j.fields && x in LockedKeys(j.fields[k], locked) :: x)
    else {}
  }

  /** The part of `LockedKeys` found under the keys `ks`. */
  ghost function LockedUnder(j: Json, ks: set<string>, locked: set<string>): set<string>
    requires j.Obj? && ks <= j.fields.Keys
  {
    ks * locked + set k, x | k in ks && x in LockedKeys(j.fields[k], locked) :: x
  }

  lemma LockedUnderOne(j: Json, ks: set<string>, key: string, locked: set<string>)
    requires j.Obj? && ks <= j.fields.Keys && key in j.fields
    ensures LockedUnder(j, ks + {key}, locked) ==
      LockedUnder(j, ks, locked) + {key} * locked + LockedKeys(j.fields[key], locked)
    ensures LockedUnder(j, {}, locked) == {} && LockedUnder(j, j.fields.Keys, locked) == LockedKeys(j, locked)
  {
  }

  method Walk(node: Json, locked: set<string>, touched0: set<string>) returns (touched: set<string>)
    ensures touched == touched0 + LockedKeys(node, locked)
    decreases node
  {
    touched := touched0;
    if node.Obj? {
      var rest := node.fields.Keys;
      ghost var seen: set<string> := {};
      while rest != {}
        invariant seen <= node.fields.Keys && rest == node.fields.Keys - seen
        invariant touched == touched0 + LockedUnder(node, seen, locked)
      {
        var key :| key in rest;
        LockedUnderOne(node, seen, key, locked);
        if key in locked {
          touched := touched + {key};
        }
        touched := Walk(node.fields[key], locked, touched);
        rest := rest - {key};
        seen := seen + {key};
      }
      NoneLeft(node.fields.Keys, seen);
      if key :| key in node.fields {
        LockedUnderOne(node, {}, key, locked);
      }
    }
  }

  /** `path` ends in `key`. */
  predicate EndsIn(path: seq<string>, key: string) {
    path != [] && path[|path| - 1] == key
  }

  /** The walk finds a name exactly when some dictionary path ends in it, however deep. */
  lemma {:induction false} LockedKeysAreReachable(j: Json, locked: set<string>, key: string)
    ensures key in LockedKeys(j, locked) <==> key in locked && exists path :: EndsIn(path, key) && Lookup(j, path).Some?
    decreases j
  {
    if j.Obj? {
      forall k | k in j.fields
        ensures key in LockedKeys(j.fields[k], locked) <==>
          key in locked && exists path :: EndsIn(path, key) && Lookup(j.fields[k], path).Some?
      {
        LockedKeysAreReachable(j.fields[k], locked, key);
      }
      if key in locked && key in j.fields {
        assert EndsIn([key], key) && Lookup(j, [key]).Some?;
      }
      if k, path :| k in j.fields && EndsIn(path, key) && Lookup(j.fields[k], path).Some? {
        assert ([k] + path)[1..] == path;
        assert EndsIn([k] + path, key) && Lookup(j, [k] + path).Some?;
      }
      if path :| EndsIn(path, key) && Lookup(j, path).Some? {
        if |path| > 1 {
          assert EndsIn(path[1..], key) && Lookup(j.fields[path[0]], path[1..]).Some?;
        }
      }
    }
  }

  // ----- applying patches

  /** The configuration file's content as a dictionary: a missing file or a non-dictionary counts as empty. */
  function AsObject(config: Option<Json>): Json {
    if config.Some? && config.value.Obj? then config.value else Obj(map[])
  }

  /** An applied proposal writes the configuration only if its patch is a non-empty dictionary. */
  function ApplyPatch(config: Option<Json>, patch: Json): Option<Json> {
    if patch.Obj? && patch.fields != map[] then Some(Merge(AsObject(config), patch)) else config
  }

  function FoldPatches(config: Option<Json>, patches: seq<Json>): Option<Json> {
    if patches == [] then config
    else ApplyPatch(FoldPatches(config, patches[..|patches| - 1]), patches[|patches| - 1])
  }

  /** A call of `apply_proposals`; `approves` is the critique pipeline's verdict on each position. */
  datatype Call = Call(proposals: seq<Proposal>, autoApply: bool, approves: nat -> bool)

  /** The four conditions for applying a proposal unattended. */
  predicate Applies(call: Call, i: nat, locked: set<string>)
    requires i < |call.proposals|
  {
    && call.autoApply
    && call.proposals[i].risk == "low"
    && LockedKeys(call.proposals[i].patch, locked) == {}
    && call.approves(i)
  }

  /** The patches of the first `n` proposals that are applied, in order. */
  function AppliedPatches(call: Call, n: nat, locked: set<string>): seq<Json>
    requires n <= |call.proposals|
  {
    if n == 0 then []
    else
      AppliedPatches(call, n - 1, locked)
      + if Applies(call, n - 1, locked) then [call.proposals[n - 1].patch] else []
  }

  function ConfigAfter(config: Option<Json>, call: Call, locked: set<string>): Option<Json> {
    FoldPatches(config, AppliedPatches(call, |call.proposals|, locked))
  }

  class EvolutionRuntime {
    const locked: set<string>
    var config: Option<Json>

    constructor (locked: set<string>, config: Option<Json>)
      ensures this.locked == locked && this.config == config
    {
      this.locked, this.config := locked, config;
    }

    method ApplyRuntimePatch(patch: map<string, Json>)
      modifies this
      ensures config == Some(Merge(AsObject(old(config)), Obj(patch)))
    {
      var merged := MergeDicts(AsObject(config).fields, patch);
      config := Some(Obj(merged));
    }

    /** One proposal through the gates: locked fields, critique, risk tier. */
    method Consider(proposal: Proposal, autoApply: bool, approved: bool) returns (r: ProposalResult)
      modifies this
      ensures r.proposal == proposal.id
      ensures r.blockedFields == if autoApply then LockedKeys(proposal.patch, locked) else {}
      ensures r.rejected <==> r.blockedFields != {} || !approved
      ensures r.applied <==> autoApply && proposal.risk == "low" && LockedKeys(proposal.patch, locked) == {} && approved
      ensures config == if r.applied then ApplyPatch(old(config), proposal.patch) else old(config)
    {
      r := ProposalResult(proposal.id, false, false, {});
      if autoApply {
        var touched := Walk(proposal.patch, locked, {});
        if touched != {} {
          return r.(rejected := true, blockedFields := touched);
        }
      }
      if !approved {
        return r.(rejected := true);
      }
      if autoApply && proposal.risk == "low" {
        if proposal.patch.Obj? && proposal.patch.fields != map[] {
          ApplyRuntimePatch(proposal.patch.fields);
        }
        r := r.(applied := true);
      }
    }

    method ApplyProposals(call: Call) returns (results: seq<ProposalResult>)
      modifies this
      ensures |results| == |call.proposals|
      ensures forall i :: 0 <= i < |results| ==> results[i].proposal == call.proposals[i].id
      ensures forall i :: 0 <= i < |results| ==> (results[i].applied <==> Applies(call, i, locked))
      ensures forall i :: 0 <= i < |results| ==>
        (results[i].rejected <==> results[i].blockedFields != {} || !call.approves(i))
      ensures forall i :: 0 <= i < |results| ==>
        results[i].blockedFields == if call.autoApply then LockedKeys(call.proposals[i].patch, locked) else {}
      ensures config == ConfigAfter(old(config), call, locked)
    {
      results := [];
      for i := 0 to |call.proposals|
        invariant |results| == i
        invariant forall k :: 0 <= k < i ==> results[k].proposal == call.proposals[k].id
        invariant forall k :: 0 <= k < i ==> (results[k].applied <==> Applies(call, k, locked))
        invariant forall k :: 0 <= k < i ==>
          (results[k].rejected <==> results[k].blockedFields != {} || !call.approves(k))
        invariant forall k :: 0 <= k < i ==>
          results[k].blockedFields == if call.autoApply then LockedKeys(call.proposals[k].patch, locked) else {}
        invariant config == FoldPatches(old(config), AppliedPatches(call, i, locked))
      {
        var r := Consider(call.proposals[i], call.autoApply, call.approves(i));
        results := results + [r];
        ghost var before, patch := AppliedPatches(call, i, locked), call.proposals[i].patch;
        assert (before + [patch])[..|before|] == before;
        assert before + [] == before;
      }
    }
  }

  // ----- what applied patches leave at a path

  /** The value at a path of the file; only a dictionary has paths. */
  function ValueAt(config: Option<Json>, path: seq<string>): Option<Json> {
    if config.Some? then Lookup(config.value, path) else None
  }

  /** The patch is a dictionary and has something at the path, or something that is no dictionary on the way to it. */
  ghost predicate Touches(patch: Json, path: seq<string>) {
    patch.Obj? && (Lookup(patch, path).Some? || Cuts(patch, path))
  }

  /** `v` is what a patch that touches a path leaves there: its value, a dictionary, or nothing if it cuts it off. */
  ghost predicate LeftBy(patch: Json, path: seq<string>, v: Option<Json>) {
    match Lookup(patch, path)
    case Some(given) => v.Some? && if given.Obj? then v.value.Obj? else v.value == given
    case None => v == None
  }

  /** One applied patch: a path it touches holds what it says, and any other what it held. */
  lemma PatchAtPath(config: Option<Json>, patch: Json, path: seq<string>)
    requires path != []
    ensures var after := ValueAt(ApplyPatch(config, patch), path);
      if Touches(patch, path) then LeftBy(patch, path, after) else after == ValueAt(config, path)
  {
    if patch.Obj? {
      CutsBelow(patch, path);
      MergeAtPath(AsObject(config), patch, path);
      if Lookup(patch, path).Some? {
        NotCutWhereFound(patch, path);
      }
    }
  }

  /** None of the patches from position `from` on touches the path. */
  ghost predicate Untouched(patches: seq<Json>, from: nat, path: seq<string>) {
    forall j {:trigger patches[j]} :: from <= j < |patches| ==> !Touches(patches[j], path)
  }

  lemma UntouchedLonger(patches: seq<Json>, n: nat, from: nat, path: seq<string>)
    requires |patches| == n + 1 && from <= n && Untouched(patches[..n], from, path) && !Touches(patches[n], path)
    ensures Untouched(patches, from, path)
  {
    forall j | from <= j < |patches| ensures !Touches(patches[j], path) {
      if j < n {
        assert patches[j] == patches[..n][j];
      }
    }
  }

  /**
   After any patches, a path holds what the last of them to touch it, number `k`, says;
   if there is none, which `k` as large as their number stands for, what it held at first.
   */
  ghost predicate SaysLast(before: Option<Json>, after: Option<Json>, patches: seq<Json>, k: nat, path: seq<string>) {
    if k < |patches| then
      Touches(patches[k], path) && Untouched(patches, k + 1, path) && LeftBy(patches[k], path, after)
    else
      Untouched(patches, 0, path) && after == before
  }

  lemma {:induction false} PatchesAtPath(config: Option<Json>, patches: seq<Json>, path: seq<string>)
    returns (k: nat)
    requires path != []
    ensures k <= |patches|
    ensures SaysLast(ValueAt(config, path), ValueAt(FoldPatches(config, patches), path), patches, k, path)
  {
    k := 0;
    if patches != [] {
      var n := |patches| - 1;
      var earlier := PatchesAtPath(config, patches[..n], path);
      PatchAtPath(FoldPatches(config, patches[..n]), patches[n], path);
      k := NextLast(ValueAt(config, path), ValueAt(FoldPatches(config, patches[..n]), path),
                    ValueAt(FoldPatches(config, patches), path), patches, n, earlier, path);
    }
  }

  lemma NextLast(before: Option<Json>, between: Option<Json>, after: Option<Json>, patches: seq<Json>, n: nat,
                 earlier: nat, path: seq<string>) returns (k: nat)
    requires |patches| == n + 1 && earlier <= n && SaysLast(before, between, patches[..n], earlier, path)
    requires if Touches(patches[n], path) then LeftBy(patches[n], path, after) else after == between
    ensures k <= |patches| && SaysLast(before, after, patches, k, path)
  {
    if Touches(patches[n], path) {
      k := n;
    } else if earlier < n {
      k := earlier;
      assert patches[..n][k] == patches[k];
      UntouchedLonger(patches, n, k + 1, path);
    } else {
      k := n + 1;
      UntouchedLonger(patches, n, 0, path);
    }
  }

  /** The file is a dictionary once some patch is a dictionary that is not empty, and otherwise stays what it was. */
  lemma {:induction false} PatchesAtRoot(config: Option<Json>, patches: seq<Json>)
    ensures var after := FoldPatches(config, patches);
      if exists k :: 0 <= k < |patches| && patches[k].Obj? && patches[k].fields != map[]
      then after.Some? && after.value.Obj? else after == config
  {
    if patches != [] {
      var n := |patches| - 1;
      PatchesAtRoot(config, patches[..n]);
      if k :| 0 <= k < n && patches[k].Obj? && patches[k].fields != map[] {
        assert patches[..n][k] == patches[k];
      }
    }
  }

  /** None of the proposals from `from` to `to` is both applied and touches the path. */
  ghost predicate NoneApplied(call: Call, locked: set<string>, from: nat, to: nat, path: seq<string>)
    requires to <= |call.proposals|
  {
    forall j {:trigger call.proposals[j]} ::
      from <= j < to && Applies(call, j, locked) ==> !Touches(call.proposals[j].patch, path)
  }

  /** The same for a call: what counts is the last applied proposal, number `k` of the first `n`, to touch the path. */
  ghost predicate ProposalSaysLast(before: Option<Json>, after: Option<Json>, call: Call, locked: set<string>, n: nat,
                                   k: nat, path: seq<string>)
    requires n <= |call.proposals|
  {
    if k < n then
      && Applies(call, k, locked) && Touches(call.proposals[k].patch, path)
      && NoneApplied(call, locked, k + 1, n, path) && LeftBy(call.proposals[k].patch, path, after)
    else
      NoneApplied(call, locked, 0, n, path) && after == before
  }

  lemma {:induction false} CallAtPath(config: Option<Json>, call: Call, locked: set<string>, n: nat,
                                      path: seq<string>) returns (k: nat)
    requires path != [] && n <= |call.proposals|
    ensures k <= n
    ensures ProposalSaysLast(ValueAt(config, path),
                             ValueAt(FoldPatches(config, AppliedPatches(call, n, locked)), path), call, locked, n, k,
                             path)
  {
    k := 0;
    if n > 0 {
      var before, patch := AppliedPatches(call, n - 1, locked), call.proposals[n - 1].patch;
      var earlier := CallAtPath(config, call, locked, n - 1, path);
      if Applies(call, n - 1, locked) {
        assert (before + [patch])[..|before|] == before;
        PatchAtPath(FoldPatches(config, before), patch, path);
      } else {
        assert AppliedPatches(call, n, locked) == before;
      }
      k := if Applies(call, n - 1, locked) && Touches(patch, path) then n - 1
           else if earlier < n - 1 then earlier else n;
    }
  }

  // ----- what any number of calls can do to a locked path

  /** The value at a path of the configuration. */
  function ConfigLookup(config: Option<Json>, path: seq<string>): Option<Json> {
    Lookup(AsObject(config), path)
  }

  /** Some dictionary patch overwrites a container of `path` with a non-dictionary. */
  ghost predicate AnyCuts(patches: seq<Json>, path: seq<string>) {
    exists patch :: patch in patches && patch.Obj? && Cuts(patch, path)
  }

  lemma {:induction false} LockedPathUnderPatches(config: Option<Json>, patches: seq<Json>, locked: set<string>,
                                                  path: seq<string>)
    requires forall i :: 0 <= i < |patches| ==> LockedKeys(patches[i], locked) == {}
    requires path != [] && path[|path| - 1] in locked
    ensures ConfigLookup(FoldPatches(config, patches), path) ==
      if AnyCuts(patches, path) then None else ConfigLookup(config, path)
  {
    if patches != [] {
      var n := |patches| - 1;
      var patch, before := patches[n], FoldPatches(config, patches[..n]);
      LockedPathUnderPatches(config, patches[..n], locked, path);
      LockedKeysAreReachable(patch, locked, path[|path| - 1]);
      assert EndsIn(path, path[|path| - 1]) && Lookup(patch, path) == None;
      MergeAtPath(AsObject(before), patch, path);
      assert patches == patches[..n] + [patch];
    }
  }

  lemma {:induction false} AppliedPatchesAreUnlocked(call: Call, n: nat, locked: set<string>)
    requires n <= |call.proposals|
    ensures forall i :: 0 <= i < |AppliedPatches(call, n, locked)| ==>
      LockedKeys(AppliedPatches(call, n, locked)[i], locked) == {}
  {
    if n > 0 {
      AppliedPatchesAreUnlocked(call, n - 1, locked);
    }
  }

  function ConfigAfterCalls(config: Option<Json>, calls: seq<Call>, locked: set<string>): Option<Json> {
    if calls == [] then config
    else ConfigAfter(ConfigAfterCalls(config, calls[..|calls| - 1], locked), calls[|calls| - 1], locked)
  }

  /** All patches applied over a run, in order. */
  function AllApplied(calls: seq<Call>, locked: set<string>): seq<Json> {
    if calls == [] then []
    else
      AllApplied(calls[..|calls| - 1], locked)
      + AppliedPatches(calls[|calls| - 1], |calls[|calls| - 1].proposals|, locked)
  }

  lemma {:induction false} FoldConcat(config: Option<Json>, first: seq<Json>, second: seq<Json>)
    ensures FoldPatches(config, first + second) == FoldPatches(FoldPatches(config, first), second)
  {
    if second == [] {
      assert first + second == first;
    } else {
      var n := |second| - 1;
      FoldConcat(config, first, second[..n]);
      assert (first + second)[..|first + second| - 1] == first + second[..n];
    }
  }

  /** A run of calls is one fold of merges over exactly the applied patches, none of which names a locked field. */
  lemma {:induction false} RunIsOneFold(config: Option<Json>, calls: seq<Call>, locked: set<string>)
    ensures ConfigAfterCalls(config, calls, locked) == FoldPatches(config, AllApplied(calls, locked))
    ensures forall i :: 0 <= i < |AllApplied(calls, locked)| ==> LockedKeys(AllApplied(calls, locked)[i], locked) == {}
  {
    if calls != [] {
      var last := calls[|calls| - 1];
      RunIsOneFold(config, calls[..|calls| - 1], locked);
      FoldConcat(config, AllApplied(calls[..|calls| - 1], locked), AppliedPatches(last, |last.proposals|, locked));
      AppliedPatchesAreUnlocked(last, |last.proposals|, locked);
    }
  }

  /** Over any number of calls, a path holds what the last applied patch to touch it says, or what it held at first. */
  lemma RunAtPath(config: Option<Json>, calls: seq<Call>, locked: set<string>, path: seq<string>) returns (k: nat)
    requires path != []
    ensures k <= |AllApplied(calls, locked)|
    ensures SaysLast(ValueAt(config, path), ValueAt(ConfigAfterCalls(config, calls, locked), path),
                     AllApplied(calls, locked), k, path)
  {
    RunIsOneFold(config, calls, locked);
    k := PatchesAtPath(config, AllApplied(calls, locked), path);
  }

  /**
   Whatever is proposed, over any number of calls, the value under a locked key never changes and no path to one
   appears; such a path disappears exactly when some applied patch replaces a dictionary around it by something else.
   */
  lemma LockedFieldsSurvive(config: Option<Json>, calls: seq<Call>, locked: set<string>, path: seq<string>)
    requires path != [] && path[|path| - 1] in locked
    ensures ConfigLookup(ConfigAfterCalls(config, calls, locked), path)
         == if AnyCuts(AllApplied(calls, locked), path) then None else ConfigLookup(config, path)
  {
    RunIsOneFold(config, calls, locked);
    LockedPathUnderPatches(config, AllApplied(calls, locked), locked, path);
  }

  /** A single proposal that passes the gates is all that a run of one call applies. */
  lemma OneApplied(call: Call, locked: set<string>)
    requires |call.proposals| == 1 && Applies(call, 0, locked)
    ensures AllApplied([call], locked) == [call.proposals[0].patch]
  {
    assert AppliedPatches(call, 1, locked) == AppliedPatches(call, 0, locked) + [call.proposals[0].patch];
    assert [call][..0] == [] && AllApplied([], locked) == [];
  }

  lemma OverwritingCuts(patch: Json, path: seq<string>)
    requires patch == Obj(map["evolution" := Null]) && path == ["evolution", "blast_radius"]
    ensures LockedKeys(patch, {"blast_radius"}) == {} && AnyCuts([patch], path)
  {
    assert LockedKeys(Null, {"blast_radius"}) == {} && "evolution" !in {"blast_radius"};
    assert path[..1] == ["evolution"] && ["evolution"][1..] == [];
    assert Lookup(patch, path[..1]) == Some(Null) && Cuts(patch, path);
    assert patch in [patch];
  }

  lemma LockedValue(config: Option<Json>, path: seq<string>)
    requires config == Some(Obj(map["evolution" := Obj(map["blast_radius" := Num(1)])]))
    requires path == ["evolution", "blast_radius"]
    ensures ConfigLookup(config, path) == Some(Num(1))
  {
    assert path[1..] == ["blast_radius"] && ["blast_radius"][1..] == [];
    assert Lookup(Obj(map["blast_radius" := Num(1)]), ["blast_radius"]) == Lookup(Num(1), []);
    assert Lookup(config.value, path) == Lookup(config.value.fields["evolution"], path[1..]);
  }

  /** The loss is real: the gates let a patch through that deletes a locked field by overwriting what holds it. */
  lemma LockedFieldCanVanish(approves: nat -> bool)
    requires approves(0)
    ensures var call := Call([Proposal("p", Obj(map["evolution" := Null]), "low")], true, approves);
      var config := Some(Obj(map["evolution" := Obj(map["blast_radius" := Num(1)])]));
      && LockedKeys(call.proposals[0].patch, {"blast_radius"}) == {} && Applies(call, 0, {"blast_radius"})
      && ConfigLookup(config, ["evolution", "blast_radius"]) == Some(Num(1))
      && ConfigLookup(ConfigAfterCalls(config, [call], {"blast_radius"}), ["evolution", "blast_radius"]) == None
  {
    var locked, path := {"blast_radius"}, ["evolution", "blast_radius"];
    var call := Call([Proposal("p", Obj(map["evolution" := Null]), "low")], true, approves);
    var config := Some(Obj(map["evolution" := Obj(map["blast_radius" := Num(1)])]));
    OverwritingCuts(call.proposals[0].patch, path);
    OneApplied(call, locked);
    LockedFieldsSurvive(config, [call], locked, path);
    LockedValue(config, path);
  }
}
