/**
 * The RenderScript base object `BaseObj`: an id handed out by the native
 * side and a name that can be given once.  The native call `nAssignName`
 * made through the object's `RenderScript` context is recorded in
 * `rsCalls`; turning the name into UTF-8 bytes is outside the model, so the
 * recorded call carries the name itself.
 */
module BaseObject {
  import opened Common

  /** A call made through `mRS`. */
  datatype RsCall = AssignName(id: int, name: string)

  /** How `setName` ends: the name is set, or one of its two
      `IllegalArgumentException`s. */
  datatype SetNameResult = Named | EmptyName | AlreadyNamed

  class BaseObj {
    /** `mID` */
    var id: int
    /** `mName`, `None` for null */
    var name: Option<string>
    /** the `nAssignName` calls made for this object, oldest first */
    var rsCalls: seq<RsCall>

    /** The name is either unset and never sent to the native side, or set
        to a non-empty string that was sent exactly once, under the id. */
    ghost predicate Valid()
      reads this
    {
      match name
      case None => rsCalls == []
      case Some(n) => |n| > 0 && rsCalls == [AssignName(id, n)]
    }

    /** A new object has id 0 and no name. */
    constructor ()
      ensures Valid()
      ensures id == 0 && name == None && rsCalls == []
    {
      id := 0;
      name := None;
      rsCalls := [];
    }

    /** `getID`. */
    method GetID() returns (r: int)
      ensures r == id
    {
      r := id;
    }

    /** `setName`.  An empty string, or an object that already has a name,
        is refused and nothing changes; otherwise the name is passed to the
        native side and then kept.  The id never changes. */
    method SetName(s: string) returns (result: SetNameResult)
      requires Valid()
      modifies this
      ensures Valid()
      ensures id == old(id)
      ensures |s| < 1 ==> result == EmptyName
      ensures |s| >= 1 && old(name).Some? ==> result == AlreadyNamed
      ensures result != Named ==> name == old(name) && rsCalls == old(rsCalls)
      ensures result == Named <==> |s| >= 1 && old(name).None?
      ensures result == Named ==> name == Some(s) && rsCalls == old(rsCalls) + [AssignName(id, s)]
    {
      if |s| < 1 {
        return EmptyName;
      }
      if name.Some? {
        return AlreadyNamed;
      }
      rsCalls := rsCalls + [AssignName(id, s)];
      name := Some(s);
      result := Named;
    }
  }

  /** A name is given once: the second `setName` is refused, the first name
      stays, and only one name reached the native side. */
  method NameOnceScenario(first: string, second: string)
      returns (r1: SetNameResult, r2: SetNameResult, name: Option<string>, calls: seq<RsCall>, id: int)
    requires |first| > 0
    ensures r1 == Named && r2 == (if |second| < 1 then EmptyName else AlreadyNamed)
    ensures name == Some(first) && calls == [AssignName(0, first)] && id == 0
  {
    var obj := new BaseObj();
    r1 := obj.SetName(first);
    r2 := obj.SetName(second);
    name, calls := obj.name, obj.rsCalls;
    id := obj.GetID();
  }

  /** An empty name is refused and leaves the object unnamed, so a later
      non-empty name is still accepted. */
  method EmptyThenNamedScenario(later: string) returns (r1: SetNameResult, r2: SetNameResult, name: Option<string>)
    requires |later| > 0
    ensures r1 == EmptyName && r2 == Named && name == Some(later)
  {
    var obj := new BaseObj();
    r1 := obj.SetName("");
    r2 := obj.SetName(later);
    name := obj.name;
  }
}
