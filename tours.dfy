/** A tour as the screens see it, its derived display properties, and its change-notifying setters. */
module Tours {
  import opened Wrappers
  import opened Text

  /**
   * `Models.Tour`. Dates are ticks; the price and discount are exact decimals.
   * `photoFileName` is `None` when the object was built without one.
   */
  datatype Tour = Tour(
    id: int, tourCode: int, name: string, country: string, durationDays: int,
    startDate: int, price: real, busType: string, capacity: int, freeSeats: int,
    photoFileName: Option<string>, discount: real)
  {
    /** A discount above fifteen percent makes a special offer. */
    predicate IsSpecialOffer() {
      discount > 15.0
    }

    /** Fewer free seats than a tenth of the capacity. */
    predicate IsFewSeats() {
      capacity > 0 && (freeSeats as real) < (capacity as real) * 0.1
    }

    /** `"-{Discount}%"` for a positive discount, where `render` is the culture's decimal formatting; else empty. */
    function DiscountInfo(render: real -> string): string {
      if discount > 0.0 then "-" + render(discount) + "%" else ""
    }

    /** `"{FreeSeats}/{Capacity} мест"`. */
    function FreeSeatsInfo(): string {
      IntToString(freeSeats) + "/" + IntToString(capacity) + " мест"
    }
  }

  /** The few-seats rule in integers: ten times the free seats is below the capacity. */
  lemma FewSeatsIffTenfold(t: Tour)
    ensures t.IsFewSeats() <==> t.capacity > 0 && 10 * t.freeSeats < t.capacity
  {
  }

  /** The discount badge is shown exactly for a positive discount. */
  lemma DiscountInfoShownIff(t: Tour, render: real -> string)
    ensures t.DiscountInfo(render) != "" <==> t.discount > 0.0
  {
    if t.discount > 0.0 {
      assert |t.DiscountInfo(render)| >= 2;
    }
  }

  /** The first `c` in `x + [c] + u` is right after `x` when `x` has none. */
  lemma {:induction false} IndexOfAfterPrefix(x: string, c: char, u: string)
    requires c !in x
    ensures IndexOf(x + [c] + u, c) == Some(|x|)
    decreases |x|
  {
    if x != [] {
      assert (x + [c] + u)[1..] == x[1..] + [c] + u;
      IndexOfAfterPrefix(x[1..], c, u);
    }
  }

  lemma NoSlashInNumber(n: int)
    ensures '/' !in IntToString(n)
  {
    var s := IntToString(n);
    forall i | 0 <= i < |s| ensures s[i] != '/' {
      if i > 0 {
        assert IsDigit(s[i]);
      }
    }
  }

  /** The seats caption determines both numbers it shows. */
  lemma FreeSeatsInfoInjective(a: Tour, b: Tour)
    requires a.FreeSeatsInfo() == b.FreeSeatsInfo()
    ensures a.freeSeats == b.freeSeats && a.capacity == b.capacity
  {
    var x, y := IntToString(a.freeSeats), IntToString(b.freeSeats);
    var u, v := IntToString(a.capacity) + " мест", IntToString(b.capacity) + " мест";
    assert a.FreeSeatsInfo() == x + ['/'] + u;
    assert b.FreeSeatsInfo() == y + ['/'] + v;
    NoSlashInNumber(a.freeSeats);
    NoSlashInNumber(b.freeSeats);
    IndexOfAfterPrefix(x, '/', u);
    IndexOfAfterPrefix(y, '/', v);
    assert |x| == |y|;
    assert x == a.FreeSeatsInfo()[..|x|] == y;
    IntToStringInjective(a.freeSeats, b.freeSeats);
    assert u == a.FreeSeatsInfo()[|x| + 1..] == v;
    assert IntToString(a.capacity) == u[..|u| - 5] == IntToString(b.capacity);
    IntToStringInjective(a.capacity, b.capacity);
  }

  /**
   * A `Tour` object behind `INotifyPropertyChanged`: `state` holds its properties,
   * `notified` the property names raised through `PropertyChanged` so far.
   */
  class TourObject {
    var state: Tour
    var notified: seq<string>

    constructor(init: Tour)
      ensures state == init && notified == []
    {
      state := init;
      notified := [];
    }

    /** The `FreeSeats` setter. */
    method SetFreeSeats(value: int)
      modifies this
      ensures old(state).freeSeats == value ==> state == old(state) && notified == old(notified)
      ensures old(state).freeSeats != value ==>
        state == old(state).(freeSeats := value)
        && notified == old(notified) + ["FreeSeats", "IsFewSeats", "FreeSeatsInfo"]
      // The derived properties left out of the notifications keep their values.
      ensures state.IsSpecialOffer() == old(state).IsSpecialOffer() && state.discount == old(state).discount
    {
      if state.freeSeats != value {
        state := state.(freeSeats := value);
        notified := notified + ["FreeSeats", "IsFewSeats", "FreeSeatsInfo"];
      }
    }

    /** The `PhotoFileName` setter; `PhotoPath` is derived from the file name. */
    method SetPhotoFileName(value: Option<string>)
      modifies this
      ensures old(state).photoFileName == value ==> state == old(state) && notified == old(notified)
      ensures old(state).photoFileName != value ==>
        state == old(state).(photoFileName := value)
        && notified == old(notified) + ["PhotoFileName", "PhotoPath"]
    {
      if state.photoFileName != value {
        state := state.(photoFileName := value);
        notified := notified + ["PhotoFileName", "PhotoPath"];
      }
    }

    /** The `Discount` setter. */
    method SetDiscount(value: real)
      modifies this
      ensures old(state).discount == value ==> state == old(state) && notified == old(notified)
      ensures old(state).discount != value ==>
        state == old(state).(discount := value)
        && notified == old(notified) + ["Discount", "IsSpecialOffer", "DiscountInfo"]
      // The derived properties left out of the notifications keep their values.
      ensures state.IsFewSeats() == old(state).IsFewSeats() && state.FreeSeatsInfo() == old(state).FreeSeatsInfo()
    {
      if state.discount != value {
        state := state.(discount := value);
        notified := notified + ["Discount", "IsSpecialOffer", "DiscountInfo"];
      }
    }
  }
}
