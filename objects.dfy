/**
 * The object store of one document: it owns every indirect object, keyed
 * by object number, and hands out each number exactly once.
 */
module Objects {

  import opened Wrappers
  import opened Variants

  /** The dictionary a new object starts with: /Type set when a type name is given. */
  function InitialDict(typeName: Option<string>): Dict {
    match typeName
    case Some(t) => map[Type := Name(t)]
    case None => map[]
  }

  class PdfVecObjects {
    /** Every object of the document, by object number. */
    var objects: map<nat, Dict>
    /** The object number the next creation will use. */
    var next: nat

    /** Numbers start at 1, and every number in use was issued before `next`. */
    ghost predicate Valid()
      reads this
    {
      && next >= 1
      && forall n :: n in objects ==> 1 <= n < next
    }

    constructor ()
      ensures Valid() && objects == map[] && next == 1
    {
      objects := map[];
      next := 1;
    }

    /**
     * Creates a new object under a number no existing object has,
     * generation 0, tagged with /Type when a type name is given.
     */
    method CreateObject(typeName: Option<string>) returns (r: Reference)
      requires Valid()
      modifies this
      ensures Valid()
      ensures r == Reference(old(next), 0) && r.num !in old(objects)
      ensures next == old(next) + 1
      ensures objects == old(objects)[r.num := InitialDict(typeName)]
    {
      r := Reference(next, 0);
      objects := objects[next := InitialDict(typeName)];
      next := next + 1;
    }

    /** Sets (adding or overwriting) one key of one existing object. */
    method AddKey(num: nat, key: Key, value: Variant)
      requires Valid() && num in objects
      modifies this
      ensures Valid() && next == old(next)
      ensures objects == old(objects)[num := old(objects)[num][key := value]]
    {
      objects := objects[num := objects[num][key := value]];
    }
  }
}
