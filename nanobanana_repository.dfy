/** The in-memory project store: projects keyed by their own ID, plus a
    pointer to the most recently saved one. */
module NanoBananaRepository {
  import opened Wrappers
  import opened NanoBananaModels

  class ProjectRepository {
    var store: map<string, Request>
    var currentProjectId: Option<string>

    /** Every stored project sits under its own ID, because `Save` is the only writer. */
    ghost predicate Valid()
      reads this
    {
      forall id :: id in store ==> store[id].project.projectId == id
    }

    constructor ()
      ensures Valid()
      ensures store == map[] && currentProjectId == None
      ensures GetCurrent() == None && forall id :: Get(id) == None
    {
      store := map[];
      currentProjectId := None;
    }

    /** Stores `data` under its project ID, replacing any earlier entry with
        that ID, and makes it the current project. */
    method Save(data: Request) returns (id: string)
      requires Valid()
      modifies this
      ensures Valid()
      ensures id == data.project.projectId
      ensures store == old(store)[id := data]
      ensures currentProjectId == Some(id)
      ensures Get(id) == Some(data)
      ensures forall other :: other != id ==> Get(other) == old(Get(other))
      ensures GetCurrent() == if id != "" then Some(data) else None
    {
      id := data.project.projectId;
      store := store[id := data];
      currentProjectId := Some(id);
    }

    /** The stored project with this ID, or None; what it returns is the
        project that carries that ID. */
    function Get(projectId: string): (r: Option<Request>)
      reads this
      ensures r.Some? <==> projectId in store
      ensures Valid() && r.Some? ==> r.value.project.projectId == projectId
    {
      if projectId in store then Some(store[projectId]) else None
    }

    /** The project saved last. An empty ID is falsy in the source's `if`, so a
        current project whose ID is "" is reported as None. */
    function GetCurrent(): (r: Option<Request>)
      reads this
      ensures r.Some? <==> currentProjectId.Some? && currentProjectId.value != "" && currentProjectId.value in store
      ensures Valid() && r.Some? ==> r.value.project.projectId == currentProjectId.value
    {
      if currentProjectId.Some? && currentProjectId.value != "" then Get(currentProjectId.value) else None
    }
  }
}
