/** Model-version continuity of src/evalops/pilot/provenance.py. */
module Provenance {
  import opened Results

  predicate Present(version: Option<string>) { version.Some? && version.value != "" }

  /** An absent version is let through; a present one must be among those known, on both sides. */
  predicate Accepts(historical: set<string>, resumed: set<string>, version: Option<string>) {
    Present(version) ==>
      && (historical != {} ==> version.value in historical)
      && (resumed != {} ==> version.value in resumed)
  }

  function Adopt(resumed: set<string>, version: Option<string>): set<string> {
    if Present(version) then resumed + {version.value} else resumed
  }

  datatype Continuity = Continuity(resumed: set<string>, failed: bool)

  function Next(historical: set<string>, c: Continuity, version: Option<string>): Continuity {
    if Accepts(historical, c.resumed, version) then c.(resumed := Adopt(c.resumed, version)) else c.(failed := true)
  }

  function Replay(historical: set<string>, versions: seq<Option<string>>): Continuity {
    if versions == [] then Continuity({}, false)
    else Next(historical, Replay(historical, versions[..|versions| - 1]), versions[|versions| - 1])
  }

  datatype Status = Fail | Unverified | Pass

  function StatusOf(historical: set<string>, c: Continuity): Status {
    if c.failed then Fail
    else if historical == {} || c.resumed == {} then Unverified
    else Pass
  }

  /** The first version that is present and historical (or just present, without a history) is the one adopted. */
  lemma {:induction false} AdoptsOne(historical: set<string>, versions: seq<Option<string>>)
    ensures var c := Replay(historical, versions);
            && (c.resumed == {} || exists v :: c.resumed == {v} && v != "" && (historical != {} ==> v in historical)
                                               && Some(v) in versions)
            && (c.resumed == {} ==> forall i :: 0 <= i < |versions| && Present(versions[i]) ==>
                                      historical != {} && versions[i].value !in historical)
            && (!c.failed <==> forall i :: 0 <= i < |versions| && Present(versions[i]) ==>
                versions[i].value in c.resumed)
  {
    if versions != [] {
      var n := |versions| - 1;
      AdoptsOne(historical, versions[..n]);
      var before, c := Replay(historical, versions[..n]), Replay(historical, versions);
      assert versions == versions[..n] + [versions[n]];
      if Accepts(historical, before.resumed, versions[n]) && Present(versions[n]) {
        assert c.resumed == {versions[n].value};
      }
    }
  }

  /** A run passes exactly when every version it saw is the same one, there was one, and it is historical. */
  lemma PassExactly(historical: set<string>, versions: seq<Option<string>>)
    ensures StatusOf(historical, Replay(historical, versions)) == Pass <==>
            exists v :: v in historical && v != "" && Some(v) in versions
                        && forall i :: 0 <= i < |versions| && Present(versions[i]) ==> versions[i].value == v
  {
    AdoptsOne(historical, versions);
    var c := Replay(historical, versions);
    if v :| v in historical && v != "" && Some(v) in versions
            && forall i :: 0 <= i < |versions| && Present(versions[i]) ==> versions[i].value == v
    {
      OnlyOne(historical, versions, v);
    }
  }

  lemma {:induction false} OnlyOne(historical: set<string>, versions: seq<Option<string>>, v: string)
    requires v in historical && v != ""
    requires forall i :: 0 <= i < |versions| && Present(versions[i]) ==> versions[i].value == v
    ensures Replay(historical, versions) == Continuity(if Some(v) in versions then {v} else {}, false)
  {
    if versions != [] {
      var n := |versions| - 1;
      OnlyOne(historical, versions[..n], v);
      assert versions == versions[..n] + [versions[n]];
    }
  }

  class ModelVersionContinuity {
    const historical: set<string>
    var resumed: set<string>
    var failed: bool
    /** Every version observed, in order. */
    ghost var seen: seq<Option<string>>

    ghost predicate Valid()
      reads this
    {
      Continuity(resumed, failed) == Replay(historical, seen)
    }

    constructor (historical: set<string>)
      ensures Valid() && this.historical == historical && resumed == {} && seen == []
    {
      this.historical := historical;
      resumed, failed, seen := {}, false, [];
    }

    function Status(): (status: Status)
      requires Valid()
      reads this
      ensures status == StatusOf(historical, Replay(historical, seen))
    {
      if failed then Fail
      else if historical == {} || resumed == {} then Unverified
      else Pass
    }

    /** A refused version changes nothing but the failure flag. */
    method Observe(version: Option<string>) returns (accepted: bool)
      requires Valid()
      modifies this
      ensures Valid() && seen == old(seen) + [version]
      ensures accepted == Accepts(historical, old(resumed), version)
      ensures resumed == if accepted then Adopt(old(resumed), version) else old(resumed)
    {
      seen := seen + [version];
      assert seen[..|seen| - 1] == old(seen);
      if version.None? || version.value == "" {
        return true;
      }
      if historical != {} && version.value !in historical {
        failed := true;
        return false;
      }
      if resumed != {} && version.value !in resumed {
        failed := true;
        return false;
      }
      resumed := resumed + {version.value};
      return true;
    }
  }
}
