/**
 * The representative: the simulation's delegate, which owns the reservations
 * (simulation/simulationrepdelegate/simulation_rep_delegate.go), and the auction rep in front of
 * it (auctionrep/auction_rep.go). Each auction rep method runs under the rep's lock, so it is one
 * atomic step of the concurrent system.
 */
module RepClasses {
  import opened Types
  import opened Pool

  /** `list` holds the instances of the guids `seen`, once each. */
  ghost predicate Listed(list: seq<Instance>, m: Instances, seen: set<Guid>) {
    && (forall k :: 0 <= k < |list| ==> list[k].instanceGuid in m && m[list[k].instanceGuid] == list[k])
    && (forall j, k :: 0 <= j < k < |list| ==> list[j].instanceGuid != list[k].instanceGuid)
    && (set k | 0 <= k < |list| :: list[k].instanceGuid) == seen
  }

  ghost predicate Enumerates(list: seq<Instance>, m: Instances) {
    Listed(list, m, m.Keys)
  }

  lemma ListedGrows(list: seq<Instance>, m: Instances, seen: set<Guid>, g: Guid)
    requires Listed(list, m, seen) && g in m && g !in seen && m[g].instanceGuid == g
    ensures Listed(list + [m[g]], m, seen + {g})
  {
    var longer := list + [m[g]];
    var before := set k | 0 <= k < |list| :: list[k].instanceGuid;
    var after := set k | 0 <= k < |longer| :: longer[k].instanceGuid;
    forall k | 0 <= k < |list| ensures longer[k].instanceGuid != g && longer[k].instanceGuid in before {
      assert longer[k] == list[k];
    }
    assert longer[|list|].instanceGuid == g;
    forall x | x in before ensures x in after {
      var k :| 0 <= k < |list| && list[k].instanceGuid == x;
      assert longer[k].instanceGuid == x;
    }
    assert after == before + {g};
  }

  class SimulationRepDelegate {
    var instances: map<Guid, Instance>
    const totalResources: Resources

    ghost function Contents(): Rep
      reads this
    {
      Rep(totalResources, instances)
    }

    constructor (totalResources: Resources)
      ensures this.totalResources == totalResources && instances == map[]
    {
      this.totalResources := totalResources;
      instances := map[];
    }

    /** A delegate in a given state. */
    constructor Holding(state: Rep)
      ensures Contents() == state
    {
      totalResources, instances := state.total, state.instances;
    }

    /** Subtracts every held instance from the totals, in whatever order the map yields them. */
    method RemainingResources() returns (resources: Resources)
      ensures resources == Contents().Remaining()
    {
      resources := totalResources;
      var left := instances;
      while left != map[]
        invariant left.Keys <= instances.Keys && forall g :: g in left ==> left[g] == instances[g]
        invariant resources.memoryMB - Sums.Total(Memory(left)) == Contents().Remaining().memoryMB
        invariant resources.diskMB - Sums.Total(Disk(left)) == Contents().Remaining().diskMB
        invariant resources.containers - |left| == Contents().Remaining().containers
        decreases |left|
      {
        assert left.Keys != {};
        var g :| g in left;
        AmountsAfterRelease(left, g);
        SizeAfterUpdate(left, g, left[g]);
        Sums.TotalRemove(Memory(left), g);
        Sums.TotalRemove(Disk(left), g);
        resources := Resources(resources.diskMB - left[g].resources.diskMB,
                               resources.memoryMB - left[g].resources.memoryMB,
                               resources.containers - 1);
        left := left - {g};
      }
    }

    method NumInstancesForAppGuid(app: Guid) returns (n: nat)
      ensures n == Contents().NumInstances(app)
    {
      n := 0;
      var left := instances.Keys;
      ghost var seen: set<Guid> := {};
      while left != {}
        invariant seen !! left && seen + left == instances.Keys
        invariant n == |OfApp(instances, seen, app)|
        decreases |left|
      {
        var g :| g in left;
        OfAppGrows(instances, seen, g, app);
        if instances[g].appGuid == app {
          n := n + 1;
        }
        left, seen := left - {g}, seen + {g};
      }
      assert seen == instances.Keys;
    }

    /** Stores the instance, overwriting an earlier reservation of the same guid, if there is room. */
    method Reserve(instance: Instance) returns (error: Error)
      modifies this`instances
      ensures error == if old(Contents().HasRoom(instance.resources)) then NoError else InsufficientResources
      ensures Contents() == if error == NoError then old(Contents()).Reserve(instance) else old(Contents())
    {
      var remaining := RemainingResources();
      if !Sufficient(instance.resources, remaining) {
        return InsufficientResources;
      }
      instances := instances[instance.instanceGuid := instance];
      error := NoError;
    }

    /** The error names the zero instance's guid, that is, none: the lookup has just failed. */
    method ReleaseReservation(instance: Instance) returns (error: Error)
      modifies this`instances
      ensures error == if instance.instanceGuid in old(instances) then NoError else NoReservation(NO_GUID)
      ensures Contents() == old(Contents()).Release(instance.instanceGuid)
    {
      if instance.instanceGuid !in instances {
        assert instances - {instance.instanceGuid} == instances;
        return NoReservation(NO_GUID);
      }
      instances := instances - {instance.instanceGuid};
      error := NoError;
    }

    method Claim(instance: Instance) returns (error: Error)
      ensures error == if instance.instanceGuid in instances then NoError else NoReservation(instance.instanceGuid)
    {
      if instance.instanceGuid !in instances {
        return NoReservation(instance.instanceGuid);
      }
      error := NoError;
    }

    /** The held instances, once each, in some order. */
    method Instances() returns (result: seq<Instance>)
      requires forall g :: g in instances ==> instances[g].instanceGuid == g
      ensures Enumerates(result, instances)
    {
      result := [];
      var left := instances.Keys;
      while left != {}
        invariant left <= instances.Keys
        invariant Listed(result, instances, instances.Keys - left)
        decreases |left|
      {
        var g :| g in left;
        ghost var seen := instances.Keys - left;
        ListedGrows(result, instances, seen, g);
        result, left := result + [instances[g]], left - {g};
        assert instances.Keys - left == seen + {g};
      }
      assert instances.Keys - left == instances.Keys;
    }
  }

  class AuctionRep {
    const guid: Guid
    const delegate: SimulationRepDelegate

    ghost function Contents(): Rep
      reads delegate
    {
      delegate.Contents()
    }

    constructor (guid: Guid, delegate: SimulationRepDelegate)
      ensures this.guid == guid && this.delegate == delegate
    {
      this.guid, this.delegate := guid, delegate;
    }

    method Score(instance: Instance) returns (result: Result<real>)
      requires Contents().PositiveTotals()
      ensures result == if Contents().HasRoom(instance.resources)
                        then Ok(Contents().Score(instance.appGuid)) else Err(InsufficientResources)
    {
      var remaining := delegate.RemainingResources();
      if !Sufficient(instance.resources, remaining) {
        return Err(InsufficientResources);
      }
      var nInstances := delegate.NumInstancesForAppGuid(instance.appGuid);
      result := Ok(Utilisation(remaining, delegate.totalResources) + nInstances as real);
    }

    /**
     * Scores before reserving. After the room check the delegate's own check cannot fail, so the
     * call succeeds exactly when there was room.
     */
    method ScoreThenTentativelyReserve(instance: Instance) returns (result: Result<real>)
      requires Contents().PositiveTotals()
      modifies delegate`instances
      ensures result == if old(Contents()).HasRoom(instance.resources)
                        then Ok(old(Contents()).Score(instance.appGuid)) else Err(InsufficientResources)
      ensures Contents() == if result.Ok? then old(Contents()).Reserve(instance) else old(Contents())
    {
      var remaining := delegate.RemainingResources();
      if !Sufficient(instance.resources, remaining) {
        return Err(InsufficientResources);
      }
      var nInstances := delegate.NumInstancesForAppGuid(instance.appGuid);
      var score := Utilisation(remaining, delegate.totalResources) + nInstances as real;
      var error := delegate.Reserve(instance);
      if error != NoError {
        return Err(error);
      }
      result := Ok(score);
    }

    method ReleaseReservation(instance: Instance) returns (error: Error)
      modifies delegate`instances
      ensures (error == NoError) == (instance.instanceGuid in old(Contents()).instances)
      ensures Contents() == old(Contents()).Release(instance.instanceGuid)
    {
      error := delegate.ReleaseReservation(instance);
    }

    method Claim(instance: Instance) returns (error: Error)
      ensures (error == NoError) == (instance.instanceGuid in Contents().instances)
    {
      error := delegate.Claim(instance);
    }
  }
}
