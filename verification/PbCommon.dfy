/** The cyclic field iterator both codecs walk (pb_common.c). */
module PbCommon {
  import opened Basics
  import opened PbTypes
  import opened PbDecoding

  /** `fields` is a descriptor up to its terminator, whose tag is zero: `pos == |fields|`
      is the terminator, reached only in an empty message. */
  class FieldIter {
    const fields: seq<Field>
    var pos: nat
    var requiredFieldIndex: nat

    predicate Valid()
      reads this
    {
      && pos <= |fields| && (fields != [] ==> pos < |fields|)
      && requiredFieldIndex == RequiredBefore(fields, pos)
    }

    constructor (fields: seq<Field>)
      ensures Valid() && this.fields == fields && pos == 0
    {
      this.fields := fields;
      pos, requiredFieldIndex := 0, 0;
    }

    method Begin() returns (nonEmpty: bool)
      modifies this
      ensures Valid() && pos == 0 && nonEmpty == (fields != [])
    {
      pos, requiredFieldIndex := 0, 0;
      return fields != [];
    }

    /** Steps to the next field; false is the wrap to the first one. */
    method Next() returns (more: bool)
      requires Valid()
      modifies this
      ensures Valid()
      ensures fields != [] ==> pos == (if old(pos) + 1 == |fields| then 0 else old(pos) + 1)
      ensures more <==> fields != [] && pos != 0
    {
      if pos == |fields| {
        return false;
      }
      var prev := pos;
      pos := pos + 1;
      if pos == |fields| {
        var _ := Begin();
        return false;
      }
      if fields[prev].rule.Required? {
        requiredFieldIndex := requiredFieldIndex + 1;
      }
      return true;
    }

    /** Searches all the way round from the current field. */
    method Find(tag: nat) returns (found: bool)
      requires Valid()
      modifies this
      ensures Valid()
      ensures found <==> (if fields == [] then tag == 0 else PbDecoding.Find(fields, tag).Some?)
      ensures found && fields != [] ==> fields[pos].tag == tag
      ensures !found ==> pos == old(pos)
    {
      var start, wrapped := pos, false;
      ghost var first := true;
      while true
        invariant Valid() && start <= |fields| && (fields != [] ==> start < |fields|)
        invariant first ==> pos == start && !wrapped
        invariant !first ==> if wrapped then pos < start else pos > start
        invariant forall j | start <= j < |fields| && (wrapped || j < pos) :: fields[j].tag != tag
        invariant wrapped ==> forall j | 0 <= j < pos :: fields[j].tag != tag
        decreases if wrapped then start - pos else |fields| - pos + start + 1
      {
        if pos == |fields| {
          if tag == 0 {
            return true;
          }
        } else if fields[pos].tag == tag {
          return true;
        }
        var more := Next();
        if !more {
          wrapped := true;
        }
        if pos == start {
          return false;
        }
        first := false;
      }
    }
  }
}
