/**
 * The platform's Parcel, reduced to what the widget relies on: an
 * append-only sequence of typed values and a read cursor.
 */
module Parcels {
  import opened JavaLang

  datatype ParcelValue = StringValue(s: Option<string>) | IntValue(i: int32)

  /**
   * What `readString` returns at `pos`, and the position after it. At the
   * end of the data it gives null and stays put; a value of the other kind
   * gives null and is skipped.
   */
  function ReadStringAt(values: seq<ParcelValue>, pos: nat): (r: (Option<string>, nat))
  {
    if pos >= |values| then (None, pos)
    else if values[pos].StringValue? then (values[pos].s, pos + 1)
    else (None, pos + 1)
  }

  /** What `readInt` returns at `pos`, and the position after it; 0 where no int is found. */
  function ReadIntAt(values: seq<ParcelValue>, pos: nat): (r: (int32, nat))
  {
    if pos >= |values| then (0, pos)
    else if values[pos].IntValue? then (values[pos].i, pos + 1)
    else (0, pos + 1)
  }

  /** An int written after `prefix` is read back from position `|prefix|`. */
  lemma ReadIntAfterWrite(prefix: seq<ParcelValue>, i: int32, suffix: seq<ParcelValue>)
    ensures ReadIntAt(prefix + [IntValue(i)] + suffix, |prefix|) == (i, |prefix| + 1)
  {
  }

  class Parcel {
    var values: seq<ParcelValue>
    var pos: nat

    constructor Obtain()
      ensures values == [] && pos == 0
    {
      values, pos := [], 0;
    }

    method WriteString(s: Option<string>)
      modifies this
      ensures values == old(values) + [StringValue(s)] && pos == old(pos)
    {
      values := values + [StringValue(s)];
    }

    method WriteInt(i: int32)
      modifies this
      ensures values == old(values) + [IntValue(i)] && pos == old(pos)
    {
      values := values + [IntValue(i)];
    }

    method ReadString() returns (s: Option<string>)
      modifies this
      ensures values == old(values)
      ensures (s, pos) == ReadStringAt(old(values), old(pos))
    {
      var r := ReadStringAt(values, pos);
      s, pos := r.0, r.1;
    }

    method ReadInt() returns (i: int32)
      modifies this
      ensures values == old(values)
      ensures (i, pos) == ReadIntAt(old(values), old(pos))
    {
      var r := ReadIntAt(values, pos);
      i, pos := r.0, r.1;
    }
  }
}
