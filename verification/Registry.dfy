/** Creating workspaces in src/evalops/workspace/storage.py: the record first, then the registry that lists it. */
module Registry {
  import opened Results
  import opened Orders
  import opened Files

  datatype Workspace = Workspace(id: string, displayName: string)

  datatype Disk = Disk(registry: Option<seq<string>>, records: map<string, Workspace>)

  /** A registry lists, in order and once each, workspaces whose records are there. */
  ghost predicate Sound(disk: Disk) {
    disk.registry.Some? ==>
      && SortedBy(StringLe, disk.registry.value) && NoDuplicates(disk.registry.value)
      && forall id :: id in disk.registry.value ==> id in disk.records && disk.records[id].id == id
  }

  function Listed(disk: Disk): seq<string> { if disk.registry.Some? then disk.registry.value else [] }

  datatype End = Ended(workspace: Workspace) | EmptyName | FileFailed | Died

  lemma RegisterSound(ids: seq<string>, id: string)
    requires NoDuplicates(ids) && id !in ids
    ensures SortedBy(StringLe, Sort(StringLe, ids + [id])) && NoDuplicates(Sort(StringLe, ids + [id]))
    ensures forall x :: x in Sort(StringLe, ids + [id]) <==> x in ids || x == id
  {
    StringLeIsTotalOrder();
    hide StringLe;
    SortCorrect(StringLe, ids + [id]);
    SortMembers(StringLe, ids + [id]);
    SortNoDuplicates(StringLe, ids + [id]);
  }

  class Workspaces {
    var disk: Disk

    constructor ()
      ensures Sound(disk) && disk == Disk(None, map[])
    {
      disk := Disk(None, map[]);
    }

    /**
     * However it is cut, creating a workspace leaves every listed one listed and as it was, and lists at most the new
     * one besides; the new one is listed, with its record, whenever the call returns it.
     */
    method CreateWorkspace(id: string, name: string, first: Fault, second: Fault, third: Fault) returns (end: End)
      requires Sound(disk) && id !in Listed(disk)
      modifies this
      ensures Sound(disk)
      ensures forall x :: x in Listed(old(disk)) ==> x in Listed(disk) && disk.records[x] == old(disk).records[x]
      ensures forall x :: x in Listed(disk) ==>
                x in Listed(old(disk)) || (x == id && disk.records[x] == Workspace(id, name))
      ensures end.Ended? ==> end.workspace == Workspace(id, name) && id in Listed(disk)
      ensures id in Listed(disk) <==>
              name != [] && (old(disk).registry.None? ==> first == Fine) && second == Fine && Happens(third)
    {
      if disk.registry.None? {
        disk := if Happens(first) then disk.(registry := Some([])) else disk;
        if Seen(first) != Did {
          return if Seen(first) == Crashed then Died else FileFailed;
        }
      }
      if name == [] {
        return EmptyName;
      }
      var record := Workspace(id, name);
      var (records, step) := Replace(disk.records, id, record, second);
      disk := disk.(records := records);
      if step != Did {
        return if step == Crashed then Died else FileFailed;
      }
      var ids := disk.registry.value;
      RegisterSound(ids, id);
      hide SortedBy, NoDuplicates, Sort;
      if Happens(third) {
        disk := disk.(registry := Some(Sort(StringLe, ids + [id])));
      }
      end := match Seen(third) case Did => Ended(record) case Raised => FileFailed case Crashed => Died;
    }

    /** Every listed workspace can be loaded. */
    method ListWorkspaces() returns (found: Option<seq<Workspace>>)
      ensures found.Some? ==> disk.registry.Some? && |found.value| == |disk.registry.value|
      ensures found.Some? ==> forall i :: 0 <= i < |found.value| ==>
                disk.registry.value[i] in disk.records && found.value[i] == disk.records[disk.registry.value[i]]
      ensures Sound(disk) ==> (found.Some? <==> disk.registry.Some?)
    {
      if disk.registry.None? {
        return None;
      }
      var ids := disk.registry.value;
      var workspaces: seq<Workspace> := [];
      for i := 0 to |ids|
        invariant |workspaces| == i
        invariant forall j :: 0 <= j < i ==> ids[j] in disk.records && workspaces[j] == disk.records[ids[j]]
      {
        if ids[i] !in disk.records || disk.records[ids[i]].id != ids[i] {
          return None;
        }
        workspaces := workspaces + [disk.records[ids[i]]];
      }
      return Some(workspaces);
    }
  }
}
