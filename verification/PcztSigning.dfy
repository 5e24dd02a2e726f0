/**
 * Signing a partially created transaction with signatures made elsewhere: one pass finds the
 * spends that need a signature, the user enters one for each, a second pass puts each back where
 * it belongs.
 */
module PcztSigning {
  import opened Wrappers

  type Signature(==, !new, 0)
  type Alpha(==, !new, 0)
  type Sighash(==, !new, 0)
  type Effects(==, !new, 0)
  type Serialized(==, !new, 0)

  /** An action of a bundle, with what signing looks at and, as `effects`, everything else. */
  datatype Spend = Spend(signature: Option<Signature>, alpha: Option<Alpha>, effects: Effects)

  datatype Pool = Orchard | Ironwood

  datatype Version = V5 | V6

  datatype Pczt = Pczt(orchard: seq<Spend>, ironwood: seq<Spend>) {
    function Bundle(pool: Pool): seq<Spend> { if pool == Orchard then orchard else ironwood }

    function With(pool: Pool, bundle: seq<Spend>): Pczt {
      if pool == Orchard then Pczt(bundle, ironwood) else Pczt(orchard, bundle)
    }
  }

  datatype Error = Unsupported | ParseFailed | BadSignature | Rejected | SerializeFailed

  /**
   * The libraries around: whether a bundle parses, whether a signature is good for a spend, and
   * how a transaction is written, which may fail.
   */
  datatype Library = Library(parses: seq<Spend> -> bool, verify: (Spend, Sighash, Signature) -> bool,
                             serialize: Pczt -> Option<Serialized>)

  datatype Randomizer = Randomizer(pool: Pool, index: nat, alpha: Alpha)

  datatype Entered = Entered(pool: Pool, index: nat, signature: Signature)

  /** From version 6 on there are two bundles, either of which may have spends. */
  function PoolsFor(version: Version): seq<Pool> {
    if version == V6 then [Orchard, Ironwood] else [Orchard]
  }

  predicate AwaitsSignature(s: Spend) { s.signature.None? && s.alpha.Some? }

  // ------------------------------------------------------------------ first pass

  function Collect(pool: Pool, bundle: seq<Spend>): seq<Randomizer> {
    if bundle == [] then []
    else
      var last := |bundle| - 1;
      Collect(pool, bundle[..last])
      + if AwaitsSignature(bundle[last]) then [Randomizer(pool, last, bundle[last].alpha.value)] else []
  }

  method CollectRandomizers(pool: Pool, bundle: seq<Spend>) returns (found: seq<Randomizer>)
    ensures found == Collect(pool, bundle)
  {
    found := [];
    for i := 0 to |bundle|
      invariant found == Collect(pool, bundle[..i])
    {
      assert bundle[..i + 1][..i] == bundle[..i];
      if bundle[i].signature.None? {
        if bundle[i].alpha.Some? {
          found := found + [Randomizer(pool, i, bundle[i].alpha.value)];
        }
      }
    }
    assert bundle[..|bundle|] == bundle;
  }

  /** The randomizer belongs to a spend of this bundle that awaits a signature. */
  ghost predicate AsksFor(bundle: seq<Spend>, r: Randomizer) {
    r.index < |bundle| && AwaitsSignature(bundle[r.index]) && bundle[r.index].alpha == Some(r.alpha)
  }

  ghost predicate Increasing(rs: seq<Randomizer>) {
    forall j, k | 0 <= j < k < |rs| :: rs[j].index < rs[k].index
  }

  /** Exactly the spends that await a signature are found, each once and in order. */
  lemma {:induction false} CollectIsExact(pool: Pool, bundle: seq<Spend>)
    ensures forall r :: r in Collect(pool, bundle) <==> r.pool == pool && AsksFor(bundle, r)
    ensures Increasing(Collect(pool, bundle))
  {
    if bundle == [] {
    } else {
      var last := |bundle| - 1;
      var before, found := Collect(pool, bundle[..last]), Collect(pool, bundle);
      CollectIsExact(pool, bundle[..last]);
      forall j | 0 <= j < |before| ensures before[j].index < last {
        assert before[j] in before;
      }
      forall r ensures r in found <==> r.pool == pool && AsksFor(bundle, r) {
        if r.index < last { assert AsksFor(bundle, r) <==> AsksFor(bundle[..last], r); }
        assert r in found <==> r in before || (AwaitsSignature(bundle[last]) && r == found[|found| - 1]);
      }
    }
  }

  /** All the randomizers, in the order they are shown. */
  function Randomizers(p: Pczt, pools: seq<Pool>): seq<Randomizer> {
    if pools == [] then []
    else
      var last := |pools| - 1;
      Randomizers(p, pools[..last]) + Collect(pools[last], p.Bundle(pools[last]))
  }

  // ------------------------------------------------------------------ the user

  predicate Answered(randomizers: seq<Randomizer>, lines: seq<Option<Signature>>) {
    |randomizers| <= |lines| && forall k | 0 <= k < |randomizers| :: lines[k].Some?
  }

  /** One line is read per randomizer; `None` is a line that is not a signature. */
  function Enter(randomizers: seq<Randomizer>, lines: seq<Option<Signature>>): Result<seq<Entered>, Error> {
    if !Answered(randomizers, lines) then Err(BadSignature)
    else Ok(seq(|randomizers|, k requires 0 <= k < |randomizers| =>
           Entered(randomizers[k].pool, randomizers[k].index, lines[k].value)))
  }

  method PromptForSignatures(randomizers: seq<Randomizer>, lines: seq<Option<Signature>>)
    returns (r: Result<seq<Entered>, Error>)
    ensures r == Enter(randomizers, lines)
  {
    var signatures: seq<Entered> := [];
    for k := 0 to |randomizers|
      invariant |signatures| == k <= |lines|
      invariant forall j | 0 <= j < k :: lines[j].Some?
                  && signatures[j] == Entered(randomizers[j].pool, randomizers[j].index, lines[j].value)
    {
      if k >= |lines| || lines[k].None? { return Err(BadSignature); }
      signatures := signatures + [Entered(randomizers[k].pool, randomizers[k].index, lines[k].value)];
    }
    assert Enter(randomizers, lines).Ok? && Enter(randomizers, lines).value == signatures;
    return Ok(signatures);
  }

  // ------------------------------------------------------------------ second pass

  function ForPool(entered: seq<Entered>, pool: Pool): seq<Entered> {
    if entered == [] then []
    else
      var last := |entered| - 1;
      ForPool(entered[..last], pool) + if entered[last].pool == pool then [entered[last]] else []
  }

  /** Signatures are put in one after the other, up to the first that does not verify. */
  function ApplyAll(lib: Library, sighash: Sighash, bundle: seq<Spend>, signatures: seq<Entered>): Result<seq<Spend>,
                    Error>
    requires forall e | e in signatures :: e.index < |bundle|
    ensures ApplyAll(lib, sighash, bundle, signatures).Ok? ==>
              |ApplyAll(lib, sighash, bundle, signatures).value| == |bundle|
  {
    if signatures == [] then Ok(bundle)
    else
      var last := |signatures| - 1;
      match ApplyAll(lib, sighash, bundle, signatures[..last])
      case Err(e) => Err(e)
      case Ok(before) =>
        var e := signatures[last];
        if lib.verify(before[e.index], sighash, e.signature)
        then Ok(before[e.index := before[e.index].(signature := Some(e.signature))])
        else Err(Rejected)
  }

  /** The signatures before number `k` are in, and that one is not good. */
  ghost predicate StoppedAt(lib: Library, sighash: Sighash, before: seq<Spend>, signatures: seq<Entered>, k: nat,
                            after: seq<Spend>)
    requires forall e | e in signatures :: e.index < |before|
  {
    && k < |signatures| && ApplyAll(lib, sighash, before, signatures[..k]) == Ok(after)
    && |after| == |before| && !lib.verify(after[signatures[k].index], sighash, signatures[k].signature)
  }

  method ApplySignatures(lib: Library, sighash: Sighash, actions: array<Spend>, signatures: seq<Entered>)
    returns (r: Result<(), Error>)
    requires forall e | e in signatures :: e.index < actions.Length
    modifies actions
    ensures match ApplyAll(lib, sighash, old(actions[..]), signatures)
            case Ok(after) => r == Ok(()) && actions[..] == after
            case Err(e) =>
              r == Err(e) && exists k :: StoppedAt(lib, sighash, old(actions[..]), signatures, k, actions[..])
  {
    ghost var before := actions[..];
    for k := 0 to |signatures|
      invariant ApplyAll(lib, sighash, before, signatures[..k]) == Ok(actions[..])
    {
      assert signatures[..k + 1][..k] == signatures[..k];
      var e := signatures[k];
      if !lib.verify(actions[e.index], sighash, e.signature) {
        StaysRejected(lib, sighash, before, signatures, k + 1);
        assert StoppedAt(lib, sighash, before, signatures, k, actions[..]);
        return Err(Rejected);
      }
      actions[e.index] := actions[e.index].(signature := Some(e.signature));
    }
    assert signatures[..|signatures|] == signatures;
    return Ok(());
  }

  lemma {:induction false} StaysRejected(lib: Library, sighash: Sighash, bundle: seq<Spend>,
                                         signatures: seq<Entered>, k: nat)
    requires k <= |signatures| && forall e | e in signatures :: e.index < |bundle|
    requires ApplyAll(lib, sighash, bundle, signatures[..k]) == Err(Rejected)
    ensures ApplyAll(lib, sighash, bundle, signatures) == Err(Rejected)
    decreases |signatures|
  {
    if k < |signatures| {
      var last := |signatures| - 1;
      assert signatures[..last][..k] == signatures[..k];
      StaysRejected(lib, sighash, bundle, signatures[..last], k);
    } else {
      assert signatures[..k] == signatures;
    }
  }

  predicate IndicesFit(p: Pczt, entered: seq<Entered>) {
    forall e | e in entered :: e.index < |p.Bundle(e.pool)|
  }

  lemma {:induction false} ForPoolMembers(entered: seq<Entered>, pool: Pool)
    ensures forall e :: e in ForPool(entered, pool) <==> e in entered && e.pool == pool
  {
    if entered == [] {
    } else {
      ForPoolMembers(entered[..|entered| - 1], pool);
      assert entered == entered[..|entered| - 1] + [entered[|entered| - 1]];
    }
  }

  lemma ForPoolFits(p: Pczt, pool: Pool, entered: seq<Entered>)
    requires IndicesFit(p, entered)
    ensures forall e | e in ForPool(entered, pool) :: e.index < |p.Bundle(pool)|
  {
    ForPoolMembers(entered, pool);
  }

  /** One pool's bundle: with no signatures for it, it is not even parsed. */
  function ApplyPool(lib: Library, sighash: Sighash, bundle: seq<Spend>, signatures: seq<Entered>)
    : (r: Result<seq<Spend>, Error>)
    requires forall e | e in signatures :: e.index < |bundle|
    ensures r.Ok? ==> |r.value| == |bundle| && r == ApplyAll(lib, sighash, bundle, signatures)
  {
    if signatures == [] then Ok(bundle)
    else if !lib.parses(bundle) then Err(ParseFailed)
    else ApplyAll(lib, sighash, bundle, signatures)
  }

  /** Each pool's bundle is signed on its own, with that pool's signatures. */
  function ApplyPools(lib: Library, sighash: Sighash, p: Pczt, pools: seq<Pool>,
                      entered: seq<Entered>): (r: Result<Pczt, Error>)
    requires IndicesFit(p, entered)
    ensures r.Ok? ==> forall pool :: |r.value.Bundle(pool)| == |p.Bundle(pool)|
  {
    if pools == [] then Ok(p)
    else
      var last := |pools| - 1;
      match ApplyPools(lib, sighash, p, pools[..last], entered)
      case Err(e) => Err(e)
      case Ok(q) =>
        var pool := pools[last];
        ForPoolMembers(entered, pool);
        match ApplyPool(lib, sighash, q.Bundle(pool), ForPool(entered, pool))
        case Err(e) => Err(e)
        case Ok(bundle) => Ok(q.With(pool, bundle))
  }

  // ------------------------------------------------------------------ both passes

  function SignBundles(lib: Library, p: Pczt, version: Version, sighash: Option<Sighash>, lines: seq<Option<Signature>>)
    : Result<Pczt, Error>
  {
    if sighash.None? then Err(Unsupported)
    else if exists pool | pool in PoolsFor(version) :: !lib.parses(p.Bundle(pool)) then Err(ParseFailed)
    else
      match Enter(Randomizers(p, PoolsFor(version)), lines)
      case Err(e) => Err(e)
      case Ok(entered) =>
        EnteredIndicesFit(p, PoolsFor(version), lines);
        ApplyPools(lib, sighash.value, p, PoolsFor(version), entered)
  }

  /** The transaction with its bundles signed, as it is written. */
  function SignPczt(lib: Library, p: Pczt, version: Version, sighash: Option<Sighash>, lines: seq<Option<Signature>>)
    : Result<Serialized, Error>
  {
    match SignBundles(lib, p, version, sighash, lines)
    case Err(e) => Err(e)
    case Ok(signed) => if lib.serialize(signed).Some? then Ok(lib.serialize(signed).value) else Err(SerializeFailed)
  }

  ghost predicate DistinctSpends(rs: seq<Randomizer>) {
    forall j, k | 0 <= j < k < |rs| :: rs[j].pool != rs[k].pool || rs[j].index != rs[k].index
  }

  lemma {:induction false} RandomizersAreExact(p: Pczt, pools: seq<Pool>)
    requires forall i, j | 0 <= i < j < |pools| :: pools[i] != pools[j]
    ensures forall r :: r in Randomizers(p, pools) <==> r.pool in pools && AsksFor(p.Bundle(r.pool), r)
    ensures DistinctSpends(Randomizers(p, pools))
  {
    if pools == [] {
    } else {
      var last := |pools| - 1;
      var before, here := Randomizers(p, pools[..last]), Collect(pools[last], p.Bundle(pools[last]));
      RandomizersAreExact(p, pools[..last]);
      CollectIsExact(pools[last], p.Bundle(pools[last]));
      assert pools == pools[..last] + [pools[last]];
      forall j | 0 <= j < |before| ensures before[j].pool != pools[last] { assert before[j] in before; }
      forall j | 0 <= j < |here| ensures here[j].pool == pools[last] { assert here[j] in here; }
    }
  }

  /** Every index found in the first pass is valid in the second. */
  lemma EnteredIndicesFit(p: Pczt, pools: seq<Pool>, lines: seq<Option<Signature>>)
    requires Enter(Randomizers(p, pools), lines).Ok?
    requires forall i, j | 0 <= i < j < |pools| :: pools[i] != pools[j]
    ensures IndicesFit(p, Enter(Randomizers(p, pools), lines).value)
  {
    RandomizersAreExact(p, pools);
    var rs, entered := Randomizers(p, pools), Enter(Randomizers(p, pools), lines).value;
    forall e | e in entered ensures e.index < |p.Bundle(e.pool)| {
      var k :| 0 <= k < |entered| && entered[k] == e;
      assert rs[k] in rs;
    }
  }

  method Sign(lib: Library, p: Pczt, version: Version, sighash: Option<Sighash>, lines: seq<Option<Signature>>)
    returns (r: Result<Serialized, Error>)
    ensures r == SignPczt(lib, p, version, sighash, lines)
  {
    if sighash.None? { return Err(Unsupported); }
    var pools := PoolsFor(version);
    var randomizers: seq<Randomizer> := [];
    for i := 0 to |pools|
      invariant randomizers == Randomizers(p, pools[..i])
      invariant forall pool | pool in pools[..i] :: lib.parses(p.Bundle(pool))
    {
      assert pools[..i + 1][..i] == pools[..i];
      if !lib.parses(p.Bundle(pools[i])) { return Err(ParseFailed); }
      var found := CollectRandomizers(pools[i], p.Bundle(pools[i]));
      randomizers := randomizers + found;
    }
    assert pools[..|pools|] == pools;

    var entered := PromptForSignatures(randomizers, lines);
    if entered.Err? { return Err(entered.error); }
    EnteredIndicesFit(p, pools, lines);

    var signed := ApplyPass(lib, sighash.value, p, pools, entered.value);
    if signed.Err? { return Err(signed.error); }
    if lib.serialize(signed.value).None? { return Err(SerializeFailed); }
    return Ok(lib.serialize(signed.value).value);
  }

  method ApplyPass(lib: Library, sighash: Sighash, p: Pczt, pools: seq<Pool>, entered: seq<Entered>)
    returns (r: Result<Pczt, Error>)
    requires IndicesFit(p, entered)
    ensures r == ApplyPools(lib, sighash, p, pools, entered)
  {
    hide ApplyPool, ForPool, IndicesFit;
    var signed := p;
    for i := 0 to |pools|
      invariant ApplyPools(lib, sighash, p, pools[..i], entered) == Ok(signed)
    {
      assert pools[..i + 1][..i] == pools[..i];
      ForPoolFits(p, pools[i], entered);
      var applied := ApplyToBundle(lib, sighash, signed.Bundle(pools[i]), ForPool(entered, pools[i]));
      if applied.Err? {
        FailureStays(lib, sighash, p, pools, entered, i + 1);
        return Err(applied.error);
      }
      signed := signed.With(pools[i], applied.value);
    }
    assert pools[..|pools|] == pools;
    return Ok(signed);
  }

  method ApplyToBundle(lib: Library, sighash: Sighash, bundle: seq<Spend>, signatures: seq<Entered>)
    returns (r: Result<seq<Spend>, Error>)
    requires forall e | e in signatures :: e.index < |bundle|
    ensures r == ApplyPool(lib, sighash, bundle, signatures)
  {
    hide ApplyAll;
    if signatures == [] { return Ok(bundle); }
    if !lib.parses(bundle) { return Err(ParseFailed); }
    var actions := new Spend[|bundle|](j requires 0 <= j < |bundle| => bundle[j]);
    assert actions[..] == bundle;
    var applied := ApplySignatures(lib, sighash, actions, signatures);
    if applied.Err? { return Err(applied.error); }
    return Ok(actions[..]);
  }

  lemma {:induction false} FailureStays(lib: Library, sighash: Sighash, p: Pczt, pools: seq<Pool>,
                                        entered: seq<Entered>, k: nat)
    requires k <= |pools| && IndicesFit(p, entered) && ApplyPools(lib, sighash, p, pools[..k], entered).Err?
    ensures ApplyPools(lib, sighash, p, pools, entered) == ApplyPools(lib, sighash, p, pools[..k], entered)
    decreases |pools|
  {
    if k < |pools| {
      var last := |pools| - 1;
      assert pools[..last][..k] == pools[..k];
      FailureStays(lib, sighash, p, pools[..last], entered, k);
    } else {
      assert pools[..k] == pools;
    }
  }

  // ------------------------------------------------------------------ main result

  /** No spend is named twice. */
  ghost predicate Distinct(entered: seq<Entered>) {
    forall j, k | 0 <= j < k < |entered| ::
      entered[j].pool != entered[k].pool || entered[j].index != entered[k].index
  }

  lemma {:induction false} ApplyAllIsExact(lib: Library, sighash: Sighash, pool: Pool, bundle: seq<Spend>,
                                           signatures: seq<Entered>)
    requires Distinct(signatures) && forall e | e in signatures :: e.pool == pool && e.index < |bundle|
    ensures var r := ApplyAll(lib, sighash, bundle, signatures);
            && (r.Ok? <==> forall e | e in signatures :: lib.verify(bundle[e.index], sighash, e.signature))
            && (r.Ok? ==>
                  && (forall e | e in signatures ::
                        r.value[e.index] == bundle[e.index].(signature := Some(e.signature)))
                  && (forall i | 0 <= i < |bundle| && (forall e | e in signatures :: e.index != i) ::
                        r.value[i] == bundle[i]))
            && (r.Err? ==> r.error == Rejected)
  {
    if signatures == [] {
    } else {
      var last := |signatures| - 1;
      ApplyAllIsExact(lib, sighash, pool, bundle, signatures[..last]);
      var e := signatures[last];
      assert signatures == signatures[..last] + [e];
      assert forall f | f in signatures[..last] :: f.index != e.index;
      var before := ApplyAll(lib, sighash, bundle, signatures[..last]);
      if before.Ok? { assert before.value[e.index] == bundle[e.index]; }
    }
  }

  lemma {:induction false} ForPoolDistinct(entered: seq<Entered>, pool: Pool)
    requires Distinct(entered)
    ensures Distinct(ForPool(entered, pool))
  {
    if entered == [] {
    } else {
      var last := |entered| - 1;
      ForPoolDistinct(entered[..last], pool);
      ForPoolMembers(entered[..last], pool);
      var before := ForPool(entered[..last], pool);
      forall j | 0 <= j < |before| ensures before[j].index != entered[last].index || entered[last].pool != pool {
        assert before[j] in before;
        var k :| 0 <= k < last && entered[k] == before[j];
      }
    }
  }

  /** A pool's own pass succeeds, whatever it does to the pool. */
  ghost predicate PoolAccepts(lib: Library, sighash: Sighash, p: Pczt, pool: Pool, entered: seq<Entered>)
    requires IndicesFit(p, entered)
  {
    ForPoolMembers(entered, pool);
    ApplyPool(lib, sighash, p.Bundle(pool), ForPool(entered, pool)).Ok?
  }

  /** The last pool's own pass, after the others'. */
  lemma LastPool(lib: Library, sighash: Sighash, p: Pczt, pools: seq<Pool>, entered: seq<Entered>)
    requires pools != [] && IndicesFit(p, entered)
    requires ApplyPools(lib, sighash, p, pools[..|pools| - 1], entered).Ok?
    requires var q := ApplyPools(lib, sighash, p, pools[..|pools| - 1], entered).value;
             q.Bundle(pools[|pools| - 1]) == p.Bundle(pools[|pools| - 1])
    ensures var pool := pools[|pools| - 1];
            var q := ApplyPools(lib, sighash, p, pools[..|pools| - 1], entered).value;
            var r := ApplyPools(lib, sighash, p, pools, entered);
            && (forall e | e in ForPool(entered, pool) :: e.index < |p.Bundle(pool)|)
            && (r.Ok? <==> PoolAccepts(lib, sighash, p, pool, entered))
            && (r.Ok? ==>
                  && Ok(r.value.Bundle(pool)) == ApplyAll(lib, sighash, p.Bundle(pool), ForPool(entered, pool))
                  && forall other | other != pool :: r.value.Bundle(other) == q.Bundle(other))
  {
    hide ApplyAll, ForPool, IndicesFit;
    ForPoolFits(p, pools[|pools| - 1], entered);
  }

  lemma {:induction false} PoolsAreIndependent(lib: Library, sighash: Sighash, p: Pczt, pools: seq<Pool>,
                                               entered: seq<Entered>, pool: Pool)
    requires IndicesFit(p, entered) && forall i, j | 0 <= i < j < |pools| :: pools[i] != pools[j]
    ensures var r := ApplyPools(lib, sighash, p, pools, entered);
            && (r.Ok? <==> forall q | q in pools :: PoolAccepts(lib, sighash, p, q, entered))
            && (r.Ok? && pool !in pools ==> r.value.Bundle(pool) == p.Bundle(pool))
            && (r.Ok? && pool in pools ==>
                  (forall e | e in ForPool(entered, pool) :: e.index < |p.Bundle(pool)|)
                  && Ok(r.value.Bundle(pool)) == ApplyAll(lib, sighash, p.Bundle(pool), ForPool(entered, pool)))
  {
    hide ApplyAll, ForPool, ApplyPool, IndicesFit, PoolAccepts, Pczt.Bundle;
    if pools == [] {
    } else {
      var last := |pools| - 1;
      assert pools == pools[..last] + [pools[last]];
      ForPoolFits(p, pool, entered);
      PoolsAreIndependent(lib, sighash, p, pools[..last], entered, pool);
      PoolsAreIndependent(lib, sighash, p, pools[..last], entered, pools[last]);
      var before := ApplyPools(lib, sighash, p, pools[..last], entered);
      if before.Ok? {
        LastPool(lib, sighash, p, pools, entered);
      } else {
        assert ApplyPools(lib, sighash, p, pools, entered).Err?;
      }
    }
  }

  /** Every line read is a signature that is good for the spend it was asked for. */
  ghost predicate LinesAreGood(lib: Library, p: Pczt, version: Version, sighash: Sighash,
                               lines: seq<Option<Signature>>) {
    var rs := Randomizers(p, PoolsFor(version));
    Answered(rs, lines) && forall k | 0 <= k < |rs| ::
      && rs[k].index < |p.Bundle(rs[k].pool)|
      && lib.verify(p.Bundle(rs[k].pool)[rs[k].index], sighash, lines[k].value)
  }

  lemma EnteredAreDistinct(p: Pczt, version: Version, lines: seq<Option<Signature>>)
    requires Enter(Randomizers(p, PoolsFor(version)), lines).Ok?
    ensures Distinct(Enter(Randomizers(p, PoolsFor(version)), lines).value)
  {
    RandomizersAreExact(p, PoolsFor(version));
    var rs := Randomizers(p, PoolsFor(version));
    var entered := Enter(rs, lines).value;
    forall j, k | 0 <= j < k < |entered|
      ensures entered[j].pool != entered[k].pool || entered[j].index != entered[k].index
    {
      assert rs[j].pool != rs[k].pool || rs[j].index != rs[k].index;
    }
  }

  lemma PoolOfLine(p: Pczt, version: Version, lines: seq<Option<Signature>>, k: nat)
    requires Enter(Randomizers(p, PoolsFor(version)), lines).Ok? && k < |Randomizers(p, PoolsFor(version))|
    ensures var r := Randomizers(p, PoolsFor(version))[k];
            var entered := Enter(Randomizers(p, PoolsFor(version)), lines).value;
            && r.pool in PoolsFor(version) && r.index < |p.Bundle(r.pool)| && k < |lines| && lines[k].Some?
            && Entered(r.pool, r.index, lines[k].value) in ForPool(entered, r.pool)
  {
    var rs := Randomizers(p, PoolsFor(version));
    var entered := Enter(rs, lines).value;
    RandomizersAreExact(p, PoolsFor(version));
    assert rs[k] in rs;
    ForPoolMembers(entered, rs[k].pool);
    assert entered[k] in entered;
  }

  lemma PoolAcceptsExactly(lib: Library, sighash: Sighash, p: Pczt, pool: Pool, entered: seq<Entered>)
    requires IndicesFit(p, entered) && Distinct(entered)
    ensures PoolAccepts(lib, sighash, p, pool, entered)
            <==> (ForPool(entered, pool) != [] ==> lib.parses(p.Bundle(pool)))
                 && forall e | e in ForPool(entered, pool) ::
                      e.index < |p.Bundle(pool)| && lib.verify(p.Bundle(pool)[e.index], sighash, e.signature)
  {
    ForPoolMembers(entered, pool);
    ForPoolDistinct(entered, pool);
    ApplyAllIsExact(lib, sighash, pool, p.Bundle(pool), ForPool(entered, pool));
  }

  ghost predicate AllVerify(lib: Library, p: Pczt, sighash: Sighash, entered: seq<Entered>) {
    forall e | e in entered ::
      e.index < |p.Bundle(e.pool)| && lib.verify(p.Bundle(e.pool)[e.index], sighash, e.signature)
  }

  lemma GoodLinesVerify(lib: Library, p: Pczt, version: Version, sighash: Sighash, lines: seq<Option<Signature>>)
    ensures LinesAreGood(lib, p, version, sighash, lines)
            <==> Enter(Randomizers(p, PoolsFor(version)), lines).Ok?
                 && AllVerify(lib, p, sighash, Enter(Randomizers(p, PoolsFor(version)), lines).value)
  {
    var rs := Randomizers(p, PoolsFor(version));
    if Enter(rs, lines).Ok? {
      var entered := Enter(rs, lines).value;
      EnteredIndicesFit(p, PoolsFor(version), lines);
      forall k | 0 <= k < |rs|
        ensures entered[k] in entered && rs[k].index == entered[k].index && rs[k].pool == entered[k].pool
      {
      }
    }
  }

  lemma PoolsAcceptWhatVerifies(lib: Library, p: Pczt, sighash: Sighash, pools: seq<Pool>, entered: seq<Entered>)
    requires IndicesFit(p, entered) && Distinct(entered) && forall e | e in entered :: e.pool in pools
    requires forall pool | pool in pools :: lib.parses(p.Bundle(pool))
    ensures (forall pool | pool in pools :: PoolAccepts(lib, sighash, p, pool, entered))
            <==> AllVerify(lib, p, sighash, entered)
  {
    forall pool | pool in pools
      ensures PoolAccepts(lib, sighash, p, pool, entered)
              <==> forall e | e in entered && e.pool == pool ::
                     e.index < |p.Bundle(pool)| && lib.verify(p.Bundle(pool)[e.index], sighash, e.signature)
    {
      ForPoolMembers(entered, pool);
      PoolAcceptsExactly(lib, sighash, p, pool, entered);
    }
  }

  /** What is entered for the randomizers names spends of the pools, and no spend twice. */
  lemma EnteredFacts(p: Pczt, version: Version, lines: seq<Option<Signature>>)
    requires Enter(Randomizers(p, PoolsFor(version)), lines).Ok?
    ensures var entered := Enter(Randomizers(p, PoolsFor(version)), lines).value;
            && IndicesFit(p, entered) && Distinct(entered) && forall e | e in entered :: e.pool in PoolsFor(version)
  {
    var pools := PoolsFor(version);
    var rs := Randomizers(p, pools);
    var entered := Enter(rs, lines).value;
    EnteredIndicesFit(p, pools, lines);
    EnteredAreDistinct(p, version, lines);
    RandomizersAreExact(p, pools);
    forall e | e in entered ensures e.pool in pools {
      var k :| 0 <= k < |entered| && entered[k] == e;
      assert rs[k] in rs;
    }
  }

  /** The bundles are signed just when each parses and every line is good for its own spend. */
  lemma BundlesAreSignedWhenLinesAreGood(lib: Library, p: Pczt, version: Version, sighash: Sighash,
                                         lines: seq<Option<Signature>>)
    ensures SignBundles(lib, p, version, Some(sighash), lines).Ok?
            <==> (forall pool | pool in PoolsFor(version) :: lib.parses(p.Bundle(pool)))
                 && LinesAreGood(lib, p, version, sighash, lines)
  {
    hide PoolsFor, Randomizers, ApplyPools, Enter, LinesAreGood, PoolAccepts, AllVerify, IndicesFit, Distinct;
    var pools := PoolsFor(version);
    var rs := Randomizers(p, pools);
    GoodLinesVerify(lib, p, version, sighash, lines);
    if (forall pool | pool in pools :: lib.parses(p.Bundle(pool))) && Enter(rs, lines).Ok? {
      var entered := Enter(rs, lines).value;
      EnteredFacts(p, version, lines);
      DistinctPools(version);
      PoolsAcceptWhatVerifies(lib, p, sighash, pools, entered);
      PoolsAreIndependent(lib, sighash, p, pools, entered, Orchard);
    }
  }

  lemma DistinctPools(version: Version)
    ensures forall i, j | 0 <= i < j < |PoolsFor(version)| :: PoolsFor(version)[i] != PoolsFor(version)[j]
  {
  }

  /** The spend's own signature was put in, and it is good for it. */
  ghost predicate SignedWith(lib: Library, sighash: Sighash, p: Pczt, q: Pczt, r: Randomizer, line: Option<Signature>) {
    && r.index < |p.Bundle(r.pool)| == |q.Bundle(r.pool)| && line.Some?
    && q.Bundle(r.pool)[r.index] == p.Bundle(r.pool)[r.index].(signature := line)
    && lib.verify(p.Bundle(r.pool)[r.index], sighash, line.value)
  }

  ghost predicate Unchanged(p: Pczt, q: Pczt, pool: Pool, i: nat) {
    i < |p.Bundle(pool)| == |q.Bundle(pool)| && q.Bundle(pool)[i] == p.Bundle(pool)[i]
  }

  lemma SignedBundle(lib: Library, p: Pczt, version: Version, sighash: Sighash, lines: seq<Option<Signature>>,
                     pool: Pool)
    requires SignBundles(lib, p, version, Some(sighash), lines).Ok?
    ensures Enter(Randomizers(p, PoolsFor(version)), lines).Ok?
    ensures var entered := ForPool(Enter(Randomizers(p, PoolsFor(version)), lines).value, pool);
            var before, after := p.Bundle(pool), SignBundles(lib, p, version, Some(sighash), lines).value.Bundle(pool);
            && |after| == |before|
            && if pool in PoolsFor(version) then
                 && (forall e | e in entered ::
                       && e.index < |before| && lib.verify(before[e.index], sighash, e.signature)
                       && after[e.index] == before[e.index].(signature := Some(e.signature)))
                 && (forall i | 0 <= i < |before| && (forall e | e in entered :: e.index != i) :: after[i] == before[i])
               else after == before
  {
    hide PoolsFor, Randomizers, ApplyPools, Enter, ApplyAll, ForPool, Distinct;
    var entered := Enter(Randomizers(p, PoolsFor(version)), lines).value;
    EnteredFacts(p, version, lines);
    DistinctPools(version);
    PoolsAreIndependent(lib, sighash, p, PoolsFor(version), entered, pool);
    ForPoolMembers(entered, pool);
    ForPoolDistinct(entered, pool);
    ApplyAllIsExact(lib, sighash, pool, p.Bundle(pool), ForPool(entered, pool));
  }

  lemma LineIsApplied(lib: Library, p: Pczt, version: Version, sighash: Sighash, lines: seq<Option<Signature>>, k: nat)
    requires SignBundles(lib, p, version, Some(sighash), lines).Ok? && k < |Randomizers(p, PoolsFor(version))|
    ensures k < |lines|
    ensures SignedWith(lib, sighash, p, SignBundles(lib, p, version, Some(sighash), lines).value,
                       Randomizers(p, PoolsFor(version))[k], lines[k])
  {
    hide SignBundles, PoolsFor, Randomizers, Enter, ForPool;
    var pool := Randomizers(p, PoolsFor(version))[k].pool;
    SignedBundle(lib, p, version, sighash, lines, pool);
    PoolOfLine(p, version, lines, k);
  }

  lemma OthersUnchanged(lib: Library, p: Pczt, version: Version, sighash: Sighash, lines: seq<Option<Signature>>,
                        pool: Pool, i: nat)
    requires SignBundles(lib, p, version, Some(sighash), lines).Ok? && i < |p.Bundle(pool)|
    requires pool !in PoolsFor(version) || !AwaitsSignature(p.Bundle(pool)[i])
    ensures Unchanged(p, SignBundles(lib, p, version, Some(sighash), lines).value, pool, i)
  {
    hide SignBundles, PoolsFor, Randomizers, ForPool;
    var rs := Randomizers(p, PoolsFor(version));
    SignedBundle(lib, p, version, sighash, lines, pool);
    DistinctPools(version);
    RandomizersAreExact(p, PoolsFor(version));
    var entered := Enter(rs, lines).value;
    ForPoolMembers(entered, pool);
    forall e | e in ForPool(entered, pool) && pool in PoolsFor(version) ensures e.index != i {
      var k :| 0 <= k < |entered| && entered[k] == e;
      assert rs[k] in rs;
    }
  }

  /**
   * After signing, the spend each randomizer was shown for carries the signature entered for it,
   * which is good for it; every other spend of either bundle is as it was; and in the bundles
   * looked at, none awaits a signature any more.
   */
  lemma SigningIsExact(lib: Library, p: Pczt, version: Version, sighash: Sighash, lines: seq<Option<Signature>>)
    requires SignBundles(lib, p, version, Some(sighash), lines).Ok?
    ensures var q := SignBundles(lib, p, version, Some(sighash), lines).value;
            var rs := Randomizers(p, PoolsFor(version));
            && |rs| <= |lines|
            && (forall k | 0 <= k < |rs| :: SignedWith(lib, sighash, p, q, rs[k], lines[k]))
            && (forall pool, i: nat | i < |p.Bundle(pool)|
                                      && (pool !in PoolsFor(version) || !AwaitsSignature(p.Bundle(pool)[i])) ::
                  Unchanged(p, q, pool, i))
            && (forall pool, i | pool in PoolsFor(version) && 0 <= i < |q.Bundle(pool)| ::
                  q.Bundle(pool)[i].signature.Some? || q.Bundle(pool)[i].alpha.None?)
            && (forall pool, i: nat | i < |p.Bundle(pool)| && p.Bundle(pool)[i].signature.Some? ::
                  q.Bundle(pool)[i] == p.Bundle(pool)[i])
  {
    hide SignBundles, PoolsFor, Randomizers;
    var pools := PoolsFor(version);
    var rs, q := Randomizers(p, pools), SignBundles(lib, p, version, Some(sighash), lines).value;
    DistinctPools(version);
    RandomizersAreExact(p, pools);
    SignedBundle(lib, p, version, sighash, lines, Orchard);
    SignedBundle(lib, p, version, sighash, lines, Ironwood);
    forall k | 0 <= k < |rs| ensures k < |lines| && SignedWith(lib, sighash, p, q, rs[k], lines[k]) {
      LineIsApplied(lib, p, version, sighash, lines, k);
    }
    forall pool, i: nat | i < |p.Bundle(pool)| && (pool !in pools || !AwaitsSignature(p.Bundle(pool)[i]))
      ensures Unchanged(p, q, pool, i)
    {
      OthersUnchanged(lib, p, version, sighash, lines, pool, i);
    }
    forall pool, i: nat | pool in pools && i < |q.Bundle(pool)| ensures !AwaitsSignature(q.Bundle(pool)[i]) {
      if AwaitsSignature(p.Bundle(pool)[i]) {
        var r := Randomizer(pool, i, p.Bundle(pool)[i].alpha.value);
        assert AsksFor(p.Bundle(pool), r) && r in rs;
        var k :| 0 <= k < |rs| && rs[k] == r;
        assert SignedWith(lib, sighash, p, q, rs[k], lines[k]);
      } else {
        assert Unchanged(p, q, pool, i);
      }
    }
  }

  // ------------------------------------------------------------------ line by line

  /** How many spends await a signature. */
  function Awaiting(bundle: seq<Spend>): nat {
    if bundle == [] then 0
    else Awaiting(bundle[..|bundle| - 1]) + if AwaitsSignature(bundle[|bundle| - 1]) then 1 else 0
  }

  /** The bundle with the lines from `first` on filled in, one per spend that awaits a signature. */
  function FillBundle(bundle: seq<Spend>, lines: seq<Option<Signature>>, first: nat): (filled: seq<Spend>)
    ensures |filled| == |bundle|
  {
    seq(|bundle|, i requires 0 <= i < |bundle| =>
      var line := first + Awaiting(bundle[..i]);
      if AwaitsSignature(bundle[i]) && line < |lines| then bundle[i].(signature := lines[line]) else bundle[i])
  }

  /** The transaction with each line where it belongs: Orchard spends first, then Ironwood ones. */
  function Filled(p: Pczt, version: Version, lines: seq<Option<Signature>>): Pczt {
    Pczt(FillBundle(p.orchard, lines, 0),
         if version == V6 then FillBundle(p.ironwood, lines, Awaiting(p.orchard)) else p.ironwood)
  }

  lemma {:induction false} CollectPosition(pool: Pool, bundle: seq<Spend>, i: nat)
    requires i <= |bundle|
    ensures |Collect(pool, bundle)| == Awaiting(bundle)
    ensures i < |bundle| && AwaitsSignature(bundle[i]) ==>
              && Awaiting(bundle[..i]) < |Collect(pool, bundle)|
              && Collect(pool, bundle)[Awaiting(bundle[..i])] == Randomizer(pool, i, bundle[i].alpha.value)
    decreases |bundle|
  {
    if bundle == [] {
    } else {
      var last := |bundle| - 1;
      CollectPosition(pool, bundle[..last], if i < last then i else last);
      if i < last { assert bundle[..last][..i] == bundle[..i]; }
    }
  }

  /** The line read for a spend of an inspected bundle. */
  function LineOf(p: Pczt, pool: Pool, i: nat): nat
    requires i < |p.Bundle(pool)|
  {
    (if pool == Orchard then 0 else Awaiting(p.orchard)) + Awaiting(p.Bundle(pool)[..i])
  }

  /** The randomizers are shown pool by pool. */
  lemma RandomizersInOrder(p: Pczt, version: Version)
    ensures Randomizers(p, PoolsFor(version))
         == Collect(Orchard, p.orchard) + if version == V6 then Collect(Ironwood, p.ironwood) else []
  {
    hide Collect;
    assert [Orchard][..0] == [] && [Orchard, Ironwood][..1] == [Orchard];
    assert Randomizers(p, []) == [];
    assert Randomizers(p, [Orchard]) == Collect(Orchard, p.orchard);
    assert Randomizers(p, [Orchard, Ironwood]) == Collect(Orchard, p.orchard) + Collect(Ironwood, p.ironwood);
  }

  lemma RandomizerOfLine(p: Pczt, version: Version, pool: Pool, i: nat)
    requires pool in PoolsFor(version) && i < |p.Bundle(pool)| && AwaitsSignature(p.Bundle(pool)[i])
    ensures var rs := Randomizers(p, PoolsFor(version));
            && LineOf(p, pool, i) < |rs|
            && rs[LineOf(p, pool, i)] == Randomizer(pool, i, p.Bundle(pool)[i].alpha.value)
  {
    hide Collect, Awaiting, Randomizers;
    RandomizersInOrder(p, version);
    CollectPosition(Orchard, p.orchard, |p.orchard|);
    CollectPosition(pool, p.Bundle(pool), i);
  }

  lemma FilledSpend(p: Pczt, version: Version, lines: seq<Option<Signature>>, pool: Pool, i: nat)
    requires i < |p.Bundle(pool)|
    ensures |Filled(p, version, lines).Bundle(pool)| == |p.Bundle(pool)|
    ensures var spend := p.Bundle(pool)[i];
            Filled(p, version, lines).Bundle(pool)[i]
            == if pool in PoolsFor(version) && AwaitsSignature(spend) && LineOf(p, pool, i) < |lines|
               then spend.(signature := lines[LineOf(p, pool, i)]) else spend
  {
    hide Awaiting;
  }

  lemma SignedSpend(lib: Library, p: Pczt, version: Version, sighash: Sighash, lines: seq<Option<Signature>>,
                    pool: Pool, i: nat)
    requires SignBundles(lib, p, version, Some(sighash), lines).Ok? && i < |p.Bundle(pool)|
    ensures var q := SignBundles(lib, p, version, Some(sighash), lines).value;
            && |q.Bundle(pool)| == |p.Bundle(pool)|
            && q.Bundle(pool)[i] == Filled(p, version, lines).Bundle(pool)[i]
  {
    hide SignBundles, Randomizers, LineOf, Filled, PoolsFor;
    SigningIsExact(lib, p, version, sighash, lines);
    FilledSpend(p, version, lines, pool, i);
    BundleSizes(lib, p, version, sighash, lines);
    if pool in PoolsFor(version) && AwaitsSignature(p.Bundle(pool)[i]) {
      RandomizerOfLine(p, version, pool, i);
      assert SignedWith(lib, sighash, p, SignBundles(lib, p, version, Some(sighash), lines).value,
                        Randomizers(p, PoolsFor(version))[LineOf(p, pool, i)], lines[LineOf(p, pool, i)]);
    } else {
      assert Unchanged(p, SignBundles(lib, p, version, Some(sighash), lines).value, pool, i);
    }
  }

  /** What signing leaves, spend by spend, is the transaction with the lines filled in. */
  lemma SignedIsFilled(lib: Library, p: Pczt, version: Version, sighash: Sighash, lines: seq<Option<Signature>>)
    requires SignBundles(lib, p, version, Some(sighash), lines).Ok?
    ensures SignBundles(lib, p, version, Some(sighash), lines).value == Filled(p, version, lines)
  {
    hide SignBundles, FillBundle;
    var q, filled := SignBundles(lib, p, version, Some(sighash), lines).value, Filled(p, version, lines);
    BundleSizes(lib, p, version, sighash, lines);
    forall pool, i: nat | i < |p.Bundle(pool)| ensures q.Bundle(pool)[i] == filled.Bundle(pool)[i] {
      SignedSpend(lib, p, version, sighash, lines, pool, i);
    }
    forall pool ensures q.Bundle(pool) == filled.Bundle(pool) {
    }
    assert q.Bundle(Orchard) == filled.Bundle(Orchard) && q.Bundle(Ironwood) == filled.Bundle(Ironwood);
  }

  lemma BundleSizes(lib: Library, p: Pczt, version: Version, sighash: Sighash, lines: seq<Option<Signature>>)
    requires SignBundles(lib, p, version, Some(sighash), lines).Ok?
    ensures forall pool: Pool ::
              |SignBundles(lib, p, version, Some(sighash), lines).value.Bundle(pool)| == |p.Bundle(pool)|
  {
    hide SignBundles, PoolsFor, Randomizers, ForPool;
    SignedBundle(lib, p, version, sighash, lines, Orchard);
    SignedBundle(lib, p, version, sighash, lines, Ironwood);
  }

  /**
   * A transaction is written just when every bundle looked at parses, every line is good for its
   * own spend, and the transaction with exactly these signatures in it can be written.
   */
  lemma SigningSucceedsWhenLinesAreGood(lib: Library, p: Pczt, version: Version, sighash: Sighash,
                                        lines: seq<Option<Signature>>)
    ensures SignPczt(lib, p, version, Some(sighash), lines).Ok?
            <==> (forall pool | pool in PoolsFor(version) :: lib.parses(p.Bundle(pool)))
                 && LinesAreGood(lib, p, version, sighash, lines)
                 && lib.serialize(Filled(p, version, lines)).Some?
    ensures SignPczt(lib, p, version, Some(sighash), lines).Ok? ==>
              Some(SignPczt(lib, p, version, Some(sighash), lines).value) == lib.serialize(Filled(p, version, lines))
  {
    hide PoolsFor, LinesAreGood, SignBundles, Filled;
    BundlesAreSignedWhenLinesAreGood(lib, p, version, sighash, lines);
    if SignBundles(lib, p, version, Some(sighash), lines).Ok? {
      SignedIsFilled(lib, p, version, sighash, lines);
    }
  }
}
