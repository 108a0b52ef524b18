/**
 * A news item: its text, its link and the number of seconds it is shown,
 * and the Parcel format it is exchanged in.
 */
module News {
  import opened JavaLang
  import opened Parcels

  /** The three values `writeToParcel` appends, in order. */
  function HolderValues(news: Option<string>, link: Option<string>, time: int32): (r: seq<ParcelValue>)
  {
    [StringValue(news), StringValue(link), IntValue(time)]
  }

  /** The fields the Parcel constructor reads at `pos`, and the position after them. */
  datatype HolderRead = HolderRead(news: Option<string>, link: Option<string>, time: int32, next: nat)

  function ReadHolderAt(values: seq<ParcelValue>, pos: nat): (r: HolderRead)
  {
    var (news, p1) := ReadStringAt(values, pos);
    var (link, p2) := ReadStringAt(values, p1);
    var (time, p3) := ReadIntAt(values, p2);
    HolderRead(news, link, time, p3)
  }

  /**
   * Reading agrees with writing on the field order: the values written after
   * any `prefix` are read back from `|prefix|`, whatever follows them, and
   * the cursor ends just past the third value.
   */
  lemma HolderRoundTrip(prefix: seq<ParcelValue>, news: Option<string>, link: Option<string>,
                        time: int32, suffix: seq<ParcelValue>)
    ensures ReadHolderAt(prefix + HolderValues(news, link, time) + suffix, |prefix|)
            == HolderRead(news, link, time, |prefix| + 3)
  {
    var all := prefix + HolderValues(news, link, time) + suffix;
    assert all[|prefix|] == StringValue(news);
    assert all[|prefix| + 1] == StringValue(link);
    assert all[|prefix| + 2] == IntValue(time);
  }

  /** Fields are assigned only by the constructors, so they are constants here. */
  class NewsHolder {
    const news: Option<string>
    const link: Option<string>
    const time: Option<int32>

    constructor (news: Option<string>, link: Option<string>, time: Option<int32>)
      ensures this.news == news && this.link == link && this.time == time
    {
      this.news := news;
      this.link := link;
      this.time := time;
    }

    /** The private constructor: string, string, int, consumed in that order. */
    constructor FromParcel(p: Parcel)
      modifies p
      ensures p.values == old(p.values)
      ensures var r := ReadHolderAt(old(p.values), old(p.pos));
              news == r.news && link == r.link && time == Some(r.time) && p.pos == r.next
    {
      var n := p.ReadString();
      var l := p.ReadString();
      var t := p.ReadInt();
      news := n;
      link := l;
      time := Some(t);
    }

    function DescribeContents(): (r: int32)
      ensures r == 0
    {
      0
    }

    /**
     * Appends string `news`, string `link` and int `time`. A null `time`
     * cannot be unboxed: the exception escapes after the two strings.
     */
    method WriteToParcel(dest: Parcel, flags: int32) returns (thrown: bool)
      modifies dest
      ensures thrown <==> time.None?
      ensures dest.pos == old(dest.pos)
      ensures dest.values == old(dest.values) +
        (if time.Some? then HolderValues(news, link, time.value)
         else [StringValue(news), StringValue(link)])
    {
      dest.WriteString(news);
      dest.WriteString(link);
      if time.None? {
        return true;
      }
      dest.WriteInt(time.value);
      thrown := false;
    }
  }

  /** `CREATOR.createFromParcel`. */
  method CreateFromParcel(p: Parcel) returns (h: NewsHolder)
    modifies p
    ensures fresh(h)
    ensures p.values == old(p.values)
    ensures var r := ReadHolderAt(old(p.values), old(p.pos));
            h.news == r.news && h.link == r.link && h.time == Some(r.time) && p.pos == r.next
  {
    h := new NewsHolder.FromParcel(p);
  }

  /** `CREATOR.newArray`: `size` nulls; a negative size throws. */
  method NewArray(size: int32) returns (r: Option<array<NewsHolder?>>)
    ensures r.None? <==> size < 0
    ensures r.Some? ==> fresh(r.value) && r.value.Length == size as int
    ensures r.Some? ==> forall i :: 0 <= i < r.value.Length ==> r.value[i] == null
  {
    if size < 0 {
      return None;
    }
    var a := new NewsHolder?[size as int](_ => null);
    r := Some(a);
  }

  /**
   * A holder with a time, written to a fresh Parcel and created again from
   * it, has the same field values, and the cursor stands after the third value.
   */
  method RoundTripThroughParcel(h: NewsHolder) returns (copy: NewsHolder, p: Parcel)
    requires h.time.Some?
    ensures fresh(copy) && fresh(p)
    ensures copy.news == h.news && copy.link == h.link && copy.time == h.time
    ensures |p.values| == 3 && p.pos == 3
  {
    p := new Parcel.Obtain();
    var thrown := h.WriteToParcel(p, 0);
    HolderRoundTrip([], h.news, h.link, h.time.value, []);
    assert p.values == [] + HolderValues(h.news, h.link, h.time.value) + [];
    copy := CreateFromParcel(p);
  }
}
