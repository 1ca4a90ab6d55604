/**
 * The part of a git repository (through libgit2) the release commands touch: the target of
 * HEAD and the references, which References.Create extends without overwriting.
 */
module Repo {
  import opened Wrappers

  /** A commit id. */
  type Oid = string

  /** The message of git_reference_create when the name is taken and force is false. */
  function ReferenceExists(name: string): string {
    "failed to write reference '" + name + "': a reference with that name already exists."
  }

  class Repository {
    /** The commit HEAD resolves to, or the error libgit2 reports (an unborn branch, say). */
    var head: Result<Oid>
    /** Every reference name and the commit it points at. */
    var refs: map<string, Oid>

    constructor (head: Result<Oid>, refs: map<string, Oid>)
      ensures this.head == head && this.refs == refs
    {
      this.head := head;
      this.refs := refs;
    }

    /** Repository.Head, read for the commit it points at. */
    method Head() returns (r: Result<Oid>)
      ensures r == head
    {
      r := head;
    }

    /** References.Create with force false: a name that exists already is an error. */
    method CreateReference(name: string, target: Oid) returns (err: Option<string>)
      modifies this
      ensures head == old(head)
      ensures name in old(refs) ==> err == Some(ReferenceExists(name)) && refs == old(refs)
      ensures name !in old(refs) ==> err == None && refs == old(refs)[name := target]
    {
      if name in refs {
        return Some(ReferenceExists(name));
      }
      refs := refs[name := target];
      return None;
    }
  }

  /** How a release command ends: what it printed, the error it returned, or its panic. */
  datatype Outcome =
    | NothingToDo                                    // "Nothing to do"
    | WouldCreate(tag: string, on: Option<Oid>)      // a dry run: the tag, and the commit when printed
    | Created(tag: string, target: Oid)              // the reference was created
    | Failed(error: string)                          // the error returned (or passed to CheckErr)
    | Panicked(reason: string)                       // a panic in the walk
}
