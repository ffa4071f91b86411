/** The parameters that apply to a staking transaction, chosen by its inclusion height. */
module VersionedParams {
  import opened Errors
  import opened Integers
  import opened Keys
  import opened Wrappers

  datatype BabylonParams = BabylonParams(
    covenantPublicKeys: seq<PubKey>,
    covenantQuorum: uint32,
    magicBytes: bytes,
    unbondingTime: uint16,
    unbondingFee: int64,
    maxStakingAmount: int64,
    minStakingAmount: int64,
    maxStakingTime: uint16,
    minStakingTime: uint16,
    confirmationDepth: uint16)

  datatype VersionedGlobalParams = VersionedGlobalParams(
    version: uint64,
    activationHeight: uint64,
    stakingCap: int64,
    capHeight: uint64,
    tag: bytes,
    covenantPks: seq<PubKey>,
    covenantQuorum: uint32,
    unbondingTime: uint16,
    unbondingFee: int64,
    maxStakingAmount: int64,
    minStakingAmount: int64,
    maxStakingTime: uint16,
    minStakingTime: uint16,
    confirmationDepth: uint16)

  /** The latest version activated at or below `height`. */
  function GetVersionedGlobalParamsByHeight(versions: seq<VersionedGlobalParams>, height: uint64): Option<VersionedGlobalParams> {
    if versions == [] then None
    else
      var last := versions[|versions| - 1];
      if last.activationHeight <= height then Some(last)
      else GetVersionedGlobalParamsByHeight(versions[..|versions| - 1], height)
  }

  function ParamsByHeight(versions: seq<VersionedGlobalParams>, height: uint64): Result<BabylonParams, Error> {
    match GetVersionedGlobalParamsByHeight(versions, height)
    case None => Failure(Errorf("no global params for height"))
    case Some(v) =>
      Success(BabylonParams(
                v.covenantPks, v.covenantQuorum, v.tag, v.unbondingTime, v.unbondingFee, v.maxStakingAmount,
                v.minStakingAmount, v.maxStakingTime, v.minStakingTime, v.confirmationDepth))
  }

  /** The parameters are those of the version found, one by one, and there are none exactly when no version is found. */
  lemma ParamsAreTheVersions(versions: seq<VersionedGlobalParams>, height: uint64)
    ensures var found, params := GetVersionedGlobalParamsByHeight(versions, height), ParamsByHeight(versions, height);
            && (params.Success? <==> found.Some?)
            && (params.Failure? ==> !params.error.invalidRequest)
            && (params.Success? ==>
                  var p, v := params.value, found.value;
                  && p.covenantPublicKeys == v.covenantPks && p.covenantQuorum == v.covenantQuorum && p.magicBytes == v.tag
                  && p.unbondingTime == v.unbondingTime && p.unbondingFee == v.unbondingFee
                  && p.maxStakingAmount == v.maxStakingAmount && p.minStakingAmount == v.minStakingAmount
                  && p.maxStakingTime == v.maxStakingTime && p.minStakingTime == v.minStakingTime
                  && p.confirmationDepth == v.confirmationDepth)
  {
  }

  /** The versions in force at some height up to `height`, in order. */
  function Activated(versions: seq<VersionedGlobalParams>, height: uint64): seq<VersionedGlobalParams> {
    if versions == [] then []
    else
      var last := versions[|versions| - 1];
      Activated(versions[..|versions| - 1], height) + (if last.activationHeight <= height then [last] else [])
  }

  predicate Ascending(versions: seq<VersionedGlobalParams>) {
    forall i, j | 0 <= i < j < |versions| :: versions[i].activationHeight < versions[j].activationHeight
  }

  /** The lookup finds the version with the greatest activation height not above `height`, if there is one. */
  lemma {:induction false} LookupFindsLatest(versions: seq<VersionedGlobalParams>, height: uint64)
    requires Ascending(versions)
    ensures var found := GetVersionedGlobalParamsByHeight(versions, height);
            && (found.None? <==> forall v | v in versions :: v.activationHeight > height)
            && (found.Some? ==> found.value in versions && found.value.activationHeight <= height
                                && forall v | v in versions && v.activationHeight <= height :: v.activationHeight <= found.value.activationHeight)
  {
    if versions != [] {
      var n := |versions| - 1;
      assert forall v | v in versions :: v in versions[..n] || v == versions[n];
      LookupFindsLatest(versions[..n], height);
    }
  }

  lemma {:induction false} LookupIsLastActivated(versions: seq<VersionedGlobalParams>, height: uint64)
    ensures var active := Activated(versions, height);
            GetVersionedGlobalParamsByHeight(versions, height) == (if active == [] then None else Some(active[|active| - 1]))
  {
    if versions != [] {
      LookupIsLastActivated(versions[..|versions| - 1], height);
    }
  }

  /** Versions that activate above a height, wherever they are inserted, leave its parameters as they were. */
  lemma LaterVersionsDoNotMatter(before: seq<VersionedGlobalParams>, after: seq<VersionedGlobalParams>, height: uint64)
    requires Activated(before, height) == Activated(after, height)
    ensures ParamsByHeight(before, height) == ParamsByHeight(after, height)
  {
    LookupIsLastActivated(before, height);
    LookupIsLastActivated(after, height);
  }

  lemma {:induction false} AppendedLaterVersions(versions: seq<VersionedGlobalParams>, added: seq<VersionedGlobalParams>, height: uint64)
    requires forall v | v in added :: v.activationHeight > height
    ensures Activated(versions + added, height) == Activated(versions, height)
  {
    if added == [] {
      assert versions + added == versions;
    } else {
      var n := |added| - 1;
      assert (versions + added)[..|versions + added| - 1] == versions + added[..n];
      AppendedLaterVersions(versions, added[..n], height);
    }
  }
}
