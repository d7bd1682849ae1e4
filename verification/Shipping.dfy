/** Delivery quotes: counting working days, picking a rate, and the checks on what an administrator may store. */
module Shipping {
  import opened Prelude

  // ---------- working days ----------

  /** Days are numbered from Thursday 1 January 1970; Sunday is 0. */
  function WeekdayOf(day: int): int { (day + 4) % 7 }

  predicate Weekend(day: int) { WeekdayOf(day) == 0 || WeekdayOf(day) == 6 }

  /** Working days after `from`, up to and including `to`. */
  function WorkingDays(from: int, to: int): nat
    decreases to - from
  {
    if to <= from then 0 else WorkingDays(from, to - 1) + if Weekend(to) then 0 else 1
  }

  /** Weekend days that directly follow a day. */
  function WeekendAhead(day: int): nat {
    if !Weekend(day + 1) then 0 else if !Weekend(day + 2) then 1 else 2
  }

  method AddWorkingDays(from: int, days: int) returns (date: int)
    ensures from <= date && WorkingDays(from, date) == Max(days, 0)
    ensures days >= 1 ==> !Weekend(date)
    ensures days <= 0 ==> date == from
    ensures days >= 1 ==> date == AfterWorkingDays(from, days)
  {
    date := from;
    var added := 0;
    while added < days
      invariant from <= date && 0 <= added <= Max(days, 0)
      invariant WorkingDays(from, date) == added
      invariant date == from || !Weekend(date) || added < days
      invariant days <= 0 ==> date == from
      decreases days - added, WeekendAhead(date)
    {
      date := date + 1;
      if WeekdayOf(date) != 0 && WeekdayOf(date) != 6 { added := added + 1; }
    }
    if days >= 1 { ClosedFormIsResult(from, days, date); }
  }

  /** The same date without a loop: a start on a weekend counts from the Friday before, and every five working
      days span a weekend. */
  function AfterWorkingDays(from: int, days: int): int {
    var sinceMonday := (from + 3) % 7;
    var start := if sinceMonday > 4 then from - (sinceMonday - 4) else from;
    start + days + (Min(sinceMonday, 4) + days) / 5 * 2
  }

  /** Working days up to and including a day, counted from the Monday of the first week. */
  function Elapsed(day: int): int { 5 * ((day + 3) / 7) + Min((day + 3) % 7 + 1, 5) }

  lemma ElapsedStep(day: int)
    ensures Elapsed(day + 1) == Elapsed(day) + if Weekend(day + 1) then 0 else 1
  {}

  /** Counting day by day is the difference of two closed forms. */
  lemma {:induction false} WorkingDaysClosed(from: int, n: nat)
    ensures WorkingDays(from, from + n) == Elapsed(from + n) - Elapsed(from)
  {
    if n > 0 {
      WorkingDaysClosed(from, n - 1);
      ElapsedStep(from + n - 1);
    }
  }

  lemma {:induction false} ElapsedMonotone(a: int, b: int)
    requires a <= b
    ensures Elapsed(a) <= Elapsed(b)
    ensures a < b && !Weekend(b) ==> Elapsed(a) < Elapsed(b)
  {
    WorkingDaysClosed(a, b - a);
    if a < b { WorkingDaysClosed(a, b - 1 - a); }
  }

  lemma ElapsedAfter(from: int, days: int)
    requires days >= 1
    ensures var to := AfterWorkingDays(from, days);
            to > from && !Weekend(to) && Elapsed(to) == Elapsed(from) + days
  {
    var sinceMonday := (from + 3) % 7;
    var week := (from + 3) / 7;
    var index := Min(sinceMonday, 4) + days;
    var to := AfterWorkingDays(from, days);
    assert from + 3 == 7 * week + sinceMonday;
    assert to + 3 == 7 * (week + index / 5) + index % 5;
    assert (to + 3) / 7 == week + index / 5 && (to + 3) % 7 == index % 5;
  }

  lemma ClosedFormIsResult(from: int, days: int, date: int)
    requires days >= 1 && from <= date && !Weekend(date) && WorkingDays(from, date) == days
    ensures date == AfterWorkingDays(from, days)
  {
    var to := AfterWorkingDays(from, days);
    ElapsedAfter(from, days);
    WorkingDaysClosed(from, date - from);
    if date < to { ElapsedMonotone(date, to); }
    if to < date { ElapsedMonotone(to, date); }
  }

  /** More days, or a later start, never give an earlier date. */
  lemma LaterIsLater(from: int, days: int, date: int, laterFrom: int, moreDays: int, laterDate: int)
    requires from <= laterFrom && days <= moreDays
    requires date == if days >= 1 then AfterWorkingDays(from, days) else from
    requires laterDate == if moreDays >= 1 then AfterWorkingDays(laterFrom, moreDays) else laterFrom
    ensures date <= laterDate
  {
    if moreDays >= 1 { ElapsedAfter(laterFrom, moreDays); }
    if days >= 1 {
      ElapsedAfter(from, days);
      ElapsedMonotone(from, laterFrom);
      if laterDate < date { ElapsedMonotone(laterDate, date); }
    }
  }

  // ---------- what an administrator stores ----------

  /** Weights are in grams. */
  datatype Band = Band(minWeight: nat, maxWeight: nat, rate: nat)

  datatype RateType = Flat | WeightBanded

  datatype ShippingMethod = ShippingMethod(
    rateType: RateType, flatRate: Option<nat>, freeOverAmount: Option<nat>,
    daysMin: Option<nat>, daysMax: Option<nat>, bands: seq<Band>)

  /** A field of a request: missing, an explicit null, or a value. */
  datatype Field = Absent | Null | Given(value: nat)

  datatype MethodDto = MethodDto(
    rateType: Option<RateType>, flatRate: Field, freeOverAmount: Field, daysMin: Field, daysMax: Field)

  datatype Outcome<T> = Done(value: T) | BadRequest | Conflict | NotFound

  /** A comparison with null takes it for zero. */
  function AsNumber(f: Field): nat { if f.Given? then f.value else 0 }

  predicate DaysRefused(daysMin: Field, daysMax: Field) {
    !daysMin.Absent? && !daysMax.Absent? && AsNumber(daysMin) > AsNumber(daysMax)
  }

  /** A request field over a stored value: what is written, and what is checked, which looks through null. */
  function Written(f: Field, current: Option<nat>): Option<nat> {
    match f
    case Absent => current
    case Null => None
    case Given(v) => Some(v)
  }

  function Checked(f: Field, current: Option<nat>): Field {
    if f.Given? then f else if current.Some? then Given(current.value) else Absent
  }

  function CreateMethod(dto: MethodDto): Outcome<ShippingMethod> {
    if DaysRefused(dto.daysMin, dto.daysMax) || (GetOr(dto.rateType, Flat) == Flat && dto.flatRate.Absent?)
    then BadRequest
    else Done(ShippingMethod(
      GetOr(dto.rateType, Flat), Written(dto.flatRate, None), Written(dto.freeOverAmount, None),
      Written(dto.daysMin, None), Written(dto.daysMax, None), []))
  }

  function UpdateMethod(m: ShippingMethod, dto: MethodDto): Outcome<ShippingMethod> {
    if || DaysRefused(Checked(dto.daysMin, m.daysMin), Checked(dto.daysMax, m.daysMax))
       || (GetOr(dto.rateType, m.rateType) == Flat && Checked(dto.flatRate, m.flatRate).Absent?) then BadRequest
    else Done(m.(
      rateType := GetOr(dto.rateType, m.rateType), flatRate := Written(dto.flatRate, m.flatRate),
      freeOverAmount := Written(dto.freeOverAmount, m.freeOverAmount),
      daysMin := Written(dto.daysMin, m.daysMin), daysMax := Written(dto.daysMax, m.daysMax)))
  }

  predicate Overlaps(a: Band, b: Band) { a.minWeight < b.maxWeight && a.maxWeight > b.minWeight }

  function AddBand(m: ShippingMethod, b: Band): Outcome<ShippingMethod> {
    if b.minWeight >= b.maxWeight then BadRequest
    else if exists i :: 0 <= i < |m.bands| && Overlaps(m.bands[i], b) then Conflict
    else Done(m.(bands := m.bands + [b]))
  }

  function RemoveBand(m: ShippingMethod, i: nat): Outcome<ShippingMethod> {
    if i >= |m.bands| then NotFound else Done(m.(bands := m.bands[..i] + m.bands[i + 1..]))
  }

  datatype Event = EUpdate(dto: MethodDto) | EAddBand(band: Band) | ERemoveBand(i: nat)

  function Keep(outcome: Outcome<ShippingMethod>, m: ShippingMethod): ShippingMethod {
    if outcome.Done? then outcome.value else m
  }

  function Step(m: ShippingMethod, e: Event): ShippingMethod {
    match e
    case EUpdate(dto) => Keep(UpdateMethod(m, dto), m)
    case EAddBand(band) => Keep(AddBand(m, band), m)
    case ERemoveBand(i) => Keep(RemoveBand(m, i), m)
  }

  function Run(m: ShippingMethod, es: seq<Event>): ShippingMethod
    decreases |es|
  {
    if es == [] then m else Run(Step(m, es[0]), es[1..])
  }

  predicate Ordered(m: ShippingMethod) { m.daysMin.Some? && m.daysMax.Some? ==> m.daysMin.value <= m.daysMax.value }

  predicate BandsApart(bands: seq<Band>) {
    && (forall i :: 0 <= i < |bands| ==> bands[i].minWeight < bands[i].maxWeight)
    && (forall i, j :: 0 <= i < j < |bands| ==> !Overlaps(bands[i], bands[j]))
  }

  predicate Stored(m: ShippingMethod) { Ordered(m) && BandsApart(m.bands) }

  lemma CreateStores(dto: MethodDto)
    ensures CreateMethod(dto).Done? ==> Stored(CreateMethod(dto).value)
  {}

  /** Whatever is requested of a stored method, its days stay ordered and its bands apart. */
  lemma {:induction false} StaysStored(m: ShippingMethod, es: seq<Event>)
    requires Stored(m)
    ensures Stored(Run(m, es))
    decreases |es|
  {
    if es != [] {
      var next := Step(m, es[0]);
      if es[0].ERemoveBand? && es[0].i < |m.bands| {
        var k := es[0].i;
        assert forall i :: 0 <= i < |next.bands| ==> next.bands[i] == m.bands[if i < k then i else i + 1];
      }
      StaysStored(next, es[1..]);
    }
  }

  /** A number if the request gives one, else the stored one: what an update is checked with. */
  function Effective(f: Field, current: Option<nat>): Option<nat> { if f.Given? then Some(f.value) else current }

  /** What becomes of a stored field: kept when the request does not mention it, cleared by an explicit null. */
  predicate Takes(f: Field, current: Option<nat>, stored: Option<nat>) {
    && (f.Absent? ==> stored == current)
    && (f.Null? ==> stored.None?)
    && (f.Given? ==> stored == Some(f.value))
  }

  /** An update is accepted exactly when, with the stored values filled in, its days are in order and a flat method has
      a rate; it then writes every field the request mentions and keeps the others. */
  lemma UpdateIff(m: ShippingMethod, dto: MethodDto)
    ensures var rateType := if dto.rateType.Some? then dto.rateType.value else m.rateType;
            var least, most := Effective(dto.daysMin, m.daysMin), Effective(dto.daysMax, m.daysMax);
            && UpdateMethod(m, dto) in {BadRequest, Done(Keep(UpdateMethod(m, dto), m))}
            && (UpdateMethod(m, dto).Done? <==>
                  && (least.Some? && most.Some? ==> least.value <= most.value)
                  && (rateType == Flat ==> Effective(dto.flatRate, m.flatRate).Some?))
            && (UpdateMethod(m, dto).Done? ==>
                  var next := UpdateMethod(m, dto).value;
                  && next.rateType == rateType && next.bands == m.bands
                  && Takes(dto.flatRate, m.flatRate, next.flatRate)
                  && Takes(dto.freeOverAmount, m.freeOverAmount, next.freeOverAmount)
                  && Takes(dto.daysMin, m.daysMin, next.daysMin) && Takes(dto.daysMax, m.daysMax, next.daysMax))
  {}

  /** A new method is refused exactly when it is flat and says nothing of a rate, or its days are out of order, a null
      for the most days counting as none. */
  lemma CreateIff(dto: MethodDto)
    ensures CreateMethod(dto).BadRequest? <==>
              || (dto.rateType in {None, Some(Flat)} && dto.flatRate == Absent)
              || (dto.daysMin.Given? && dto.daysMax.Given? && dto.daysMin.value > dto.daysMax.value)
              || (dto.daysMin.Given? && dto.daysMax.Null? && dto.daysMin.value > 0)
    ensures CreateMethod(dto).Done? ==>
              var m := CreateMethod(dto).value;
              && m.rateType == (if dto.rateType.Some? then dto.rateType.value else Flat) && m.bands == []
              && Takes(dto.flatRate, None, m.flatRate) && Takes(dto.freeOverAmount, None, m.freeOverAmount)
              && Takes(dto.daysMin, None, m.daysMin) && Takes(dto.daysMax, None, m.daysMax)
  {}

  /** Removing a band keeps the others, in their order. */
  lemma RemoveBandIff(m: ShippingMethod, i: nat)
    ensures RemoveBand(m, i).Done? <==> i < |m.bands|
    ensures RemoveBand(m, i).Done? ==>
              var next := RemoveBand(m, i).value;
              && next == m.(bands := next.bands) && |next.bands| == |m.bands| - 1
              && forall j :: 0 <= j < |next.bands| ==> next.bands[j] == m.bands[if j < i then j else j + 1]
  {}

  /** The weights that both bands price, other than where one ends. */
  predicate Share(a: Band, b: Band, weight: nat) {
    a.minWeight <= weight < a.maxWeight && b.minWeight <= weight < b.maxWeight
  }

  /** A band is added exactly when it is not empty and shares no weight with a stored band but an end. */
  lemma AddBandIff(m: ShippingMethod, b: Band)
    requires BandsApart(m.bands)
    ensures AddBand(m, b).Done? <==>
              b.minWeight < b.maxWeight && forall i, w: nat :: 0 <= i < |m.bands| ==> !Share(m.bands[i], b, w)
    ensures AddBand(m, b).Done? ==> AddBand(m, b).value == m.(bands := m.bands + [b])
  {
    if i :| 0 <= i < |m.bands| && Overlaps(m.bands[i], b) && b.minWeight < b.maxWeight {
      assert Share(m.bands[i], b, Max(m.bands[i].minWeight, b.minWeight));
    }
  }

  predicate FlatPriced(m: ShippingMethod) { m.rateType == Flat ==> m.flatRate.Some? }

  /** An accepted update leaves a flat method without its rate exactly when the request gives the rate as an
      explicit null: the check looks through it to the stored rate, the write does not. */
  lemma FlatRateKeptIff(m: ShippingMethod, dto: MethodDto)
    requires FlatPriced(m) && UpdateMethod(m, dto).Done?
    ensures FlatPriced(UpdateMethod(m, dto).value) <==> GetOr(dto.rateType, m.rateType) != Flat || dto.flatRate != Null
  {}

  const FLAT_FIVE := ShippingMethod(Flat, Some(500), None, None, None, [])
  const RATE_NULL := MethodDto(None, Null, Absent, Absent, Absent)

  /** A flat method loses its rate to a request that is accepted. */
  lemma NullErasesFlatRate()
    ensures Stored(FLAT_FIVE) && FlatPriced(FLAT_FIVE)
    ensures UpdateMethod(FLAT_FIVE, RATE_NULL) == Done(FLAT_FIVE.(flatRate := None))
    ensures !FlatPriced(FLAT_FIVE.(flatRate := None))
  {}

  predicate Covers(b: Band, weight: nat) { b.minWeight <= weight <= b.maxWeight }

  /** A weight falls in two stored bands exactly when it is where one ends and the other begins. */
  lemma SharedOnlyAtBoundary(bands: seq<Band>, i: nat, j: nat, weight: nat)
    requires BandsApart(bands) && i < j < |bands|
    ensures Covers(bands[i], weight) && Covers(bands[j], weight) <==>
              weight == bands[i].maxWeight == bands[j].minWeight || weight == bands[j].maxWeight == bands[i].minWeight
  {
    assert !Overlaps(bands[i], bands[j]);
  }

  const UP_TO_A_KILO := Band(0, 1000, 300)
  const OVER_A_KILO := Band(1000, 2000, 500)

  /** Both neighbours may be stored, and both price a parcel of exactly a kilogram, at different rates. */
  lemma NeighboursShareWeight()
    ensures AddBand(FLAT_FIVE.(bands := [UP_TO_A_KILO]), OVER_A_KILO) ==
              Done(FLAT_FIVE.(bands := [UP_TO_A_KILO, OVER_A_KILO]))
    ensures BandsApart([UP_TO_A_KILO, OVER_A_KILO])
    ensures Covers(UP_TO_A_KILO, 1000) && Covers(OVER_A_KILO, 1000) && UP_TO_A_KILO.rate != OVER_A_KILO.rate
  {
    assert [UP_TO_A_KILO] + [OVER_A_KILO] == [UP_TO_A_KILO, OVER_A_KILO];
  }

  // ---------- quoting ----------

  datatype Quote = Quote(rate: nat, from: Option<int>, to: Option<int>)

  predicate FreeOver(m: ShippingMethod, subtotal: nat) { m.freeOverAmount.Some? && subtotal >= m.freeOverAmount.value }

  /** Quotes a method; `now` and `later` are the clock at its two readings. */
  method QuoteFor(m: ShippingMethod, weight: nat, subtotal: nat, now: int, later: int) returns (quote: Option<Quote>)
    requires Stored(m) && now <= later
    ensures quote.None? <==>
              if m.rateType == WeightBanded then forall b :: b in m.bands ==> !Covers(b, weight) else m.flatRate.None?
    ensures var free := m.freeOverAmount.Some? && m.freeOverAmount.value <= subtotal;
            quote.Some? ==>
              && (free ==> quote.value.rate == 0)
              && (!free && m.rateType == Flat ==> Some(quote.value.rate) == m.flatRate)
              && (!free && m.rateType == WeightBanded ==>
                    exists b :: b in m.bands && b.minWeight <= weight <= b.maxWeight && quote.value.rate == b.rate)
    ensures quote.Some? ==> quote.value.from.Some? == m.daysMin.Some? && quote.value.to.Some? == m.daysMax.Some?
    ensures quote.Some? && quote.value.from.Some? ==>
              now <= quote.value.from.value && WorkingDays(now, quote.value.from.value) == m.daysMin.value
    ensures quote.Some? && quote.value.to.Some? ==>
              later <= quote.value.to.value && WorkingDays(later, quote.value.to.value) == m.daysMax.value
    ensures quote.Some? && quote.value.from.Some? && quote.value.to.Some? ==>
              quote.value.from.value <= quote.value.to.value
  {
    var rate: Option<nat> := None;
    if m.rateType == WeightBanded {
      for i := 0 to |m.bands|
        invariant rate == None && forall k :: 0 <= k < i ==> !Covers(m.bands[k], weight)
      {
        if Covers(m.bands[i], weight) {
          rate := Some(m.bands[i].rate);
          break;
        }
      }
    } else {
      rate := m.flatRate;
    }
    if rate.None? { return None; }
    if FreeOver(m, subtotal) { rate := Some(0); }
    var from, to: Option<int> := None, None;
    if m.daysMin.Some? {
      var date := AddWorkingDays(now, m.daysMin.value);
      from := Some(date);
    }
    if m.daysMax.Some? {
      var date := AddWorkingDays(later, m.daysMax.value);
      to := Some(date);
    }
    if from.Some? && to.Some? {
      LaterIsLater(now, m.daysMin.value, from.value, later, m.daysMax.value, to.value);
    }
    quote := Some(Quote(rate.value, from, to));
  }
}
