/** The sliced-order engine: permissionless ticks, expiries and racing swap receipts, and what
    every interleaving of them keeps. */
module Twap {
  import opened ModArith
  import opened Wrappers
  import opened Ledger

  const TWO128: nat := 0x1_0000_0000_0000_0000_0000_0000_0000_0000

  /** What an order is created with; `si` is the input per slice, `le` the remainder that
      rides the last one. */
  datatype Terms = Terms(ns: nat, iv: nat, sh: nat, gh: nat, mo: nat, fc: nat, si: nat, le: nat)

  /** The stored counters of an order. */
  datatype Order = Order(t: Terms, nx: nat, xp: nat, rx: nat, fo: nat, ex: Account)

  /** A swap sent for a slice, whose receipt may come late, fail, or race others. */
  datatype Sent = Sent(k: nat, amt: nat, h: nat, who: Account)

  datatype Fate = Expired(h: nat) | Filled(out: nat, fee: nat, cut: nat, payout: nat)

  /** A slice settled, as it happened, and the account its fee goes to; `own` unless a
      receipt settled it that belongs to no swap of the order. */
  datatype Settle = Settle(k: nat, fate: Fate, own: bool, payee: Account)

  /** An order with the swaps it sent, its settlements, and its fee and burn transfers. */
  datatype Desk = Desk(o: Order, sent: seq<Sent>, settled: seq<Settle>, fees: nat, burned: nat)

  /** The height from which a slice may be ticked; it expires `gh` later. */
  function Due(t: Terms, k: nat): nat { t.sh + k * t.iv }

  function SliceIn(t: Terms, k: nat): nat { if k + 1 == t.ns then t.si + t.le else t.si }

  // ---- creation ----

  /** None where creation aborts. */
  function Create(deposit: nat, pool: string, ns: nat, iv: nat, start: nat, gh: nat, mo: nat, fc: nat,
                  h: nat): Option<Desk> {
    if deposit == 0 || pool == "" || ns == 0 || 1000 < ns || iv == 0 || gh == 0 || (start == 0 && h + iv >= TWO128)
    then None
    else
      Floor(deposit, ns);
      var si := deposit / ns;
      var t := Terms(ns, iv, if start == 0 then h + iv else start, gh, mo, fc, si, deposit - si * ns);
      Some(Desk(Order(t, 0, 0, 0, 0, ""), [], [], 0, 0))
  }

  // ---- ticks ----

  datatype Turn = Refuse | Expire | Send

  /** Whether the current slice may be ticked at height h, and how. */
  function TurnAt(o: Order, h: nat): Turn {
    var due := Due(o.t, o.nx);
    if o.nx == o.t.ns || due + o.t.gh >= TWO128 || h < due then Refuse
    else if due + o.t.gh < h then Expire
    else Send
  }

  function Tick(d: Desk, h: nat, who: Account): Desk {
    var o := d.o;
    match TurnAt(o, h)
    case Refuse => d
    case Expire =>
      d.(o := o.(nx := o.nx + 1, xp := o.xp + 1, rx := o.rx + SliceIn(o.t, o.nx)),
         settled := d.settled + [Settle(o.nx, Expired(h), true, "")])
    case Send =>
      d.(o := o.(ex := who), sent := d.sent + [Sent(o.nx, SliceIn(o.t, o.nx), h, who)])
  }

  // ---- receipts ----

  function FeeBps(fc: nat): nat { if 100 < fc then 100 else fc }

  /** The executor fee, the protocol cut and the payout add up to the slice's output, and
      the subtractions never underflow. */
  function Split(fc: nat, out: nat): (f: Fate)
    ensures f.Filled? && f.out == out && f.fee + f.cut + f.payout == out
    ensures 10000 * f.fee <= out * FeeBps(fc) < 10000 * (f.fee + 1) && 10000 * f.cut <= out * 50 < 10000 * (f.cut + 1)
  {
    var bps := FeeBps(fc);
    FeeBound(out, bps);
    var fee, cut := out * bps / 10000, out * 50 / 10000;
    Filled(out, fee, cut, out - fee - cut)
  }

  lemma {:induction false} FeeBound(out: nat, bps: nat)
    requires bps <= 100
    ensures 0 <= out * bps / 10000 && 100 * (out * bps / 10000) <= out
  {}

  /** An output settles its slice if the receipt is for the current one, the swap did not
      fail, the minimum is met, no product or sum leaves 128 bits, and a fee finds a payee:
      before any tick the executor is unset, and a transfer to it aborts. */
  predicate Settles(o: Order, k: nat, out: Option<nat>) {
    && k == o.nx && out.Some? && o.t.mo <= out.value
    && out.value * FeeBps(o.t.fc) < TWO128 && out.value * 50 < TWO128 && o.fo + Split(o.t.fc, out.value).payout < TWO128
    && (o.ex == "" ==> Split(o.t.fc, out.value).fee == 0)
  }

  /** The callback does not ask who calls it: any contract can run it behind a promise of
      its own, with any slice number and any result. */
  function OnSlice(d: Desk, k: nat, out: Option<nat>, own: bool): Desk {
    if !Settles(d.o, k, out) then d
    else
      var f := Split(d.o.t.fc, out.value);
      Desk(d.o.(fo := d.o.fo + f.payout, nx := d.o.nx + 1), d.sent, d.settled + [Settle(k, f, own, d.o.ex)],
           d.fees + f.fee, d.burned + f.cut)
  }

  /** The executor's fee is the floor of the smaller of the market fee and the seller's cap. */
  lemma {:induction false} FeeWithinCap(fc: nat, out: nat)
    ensures var fee := Split(fc, out).fee;
            && 10000 * fee <= out * fc && 10000 * fee <= out * 100
            && (out * fc < 10000 * (fee + 1) || out * 100 < 10000 * (fee + 1))
  {
    MulMono(FeeBps(fc), fc, out);
    MulMono(FeeBps(fc), 100, out);
  }

  /** The first slice is due at the start height, one interval after creation by default, and
      each later one an interval after the one before. */
  lemma {:induction false} DueHeights(deposit: nat, pool: string, ns: nat, iv: nat, start: nat, gh: nat, mo: nat,
                                      fc: nat, h: nat, k: nat)
    ensures var r := Create(deposit, pool, ns, iv, start, gh, mo, fc, h);
            r.Some? ==> Due(r.value.o.t, 0) == (if start == 0 then h + iv else start)
                        && Due(r.value.o.t, k + 1) == Due(r.value.o.t, k) + iv
  {}

  /** Creation is refused for no deposit, no pool, no or more than a thousand slices, no
      interval or no grace, or a default start that leaves 128 bits; else the order is as asked. */
  lemma {:induction false} CreateAsAsked(deposit: nat, pool: string, ns: nat, iv: nat, start: nat, gh: nat, mo: nat,
                                         fc: nat, h: nat)
    ensures var r := Create(deposit, pool, ns, iv, start, gh, mo, fc, h);
            && (r.None? <==> deposit == 0 || pool == "" || ns == 0 || ns > 1000 || iv == 0 || gh == 0
                             || (start == 0 && h + iv >= TWO128))
            && (r.Some? ==> var t := r.value.o.t;
                            t.ns == ns && t.iv == iv && t.gh == gh && t.mo == mo && t.fc == fc && t.le < ns
                            && t.si * ns + t.le == deposit && r.value.o.nx == 0)
  {}

  /** A slice that is not the last one's successor is sent from its due height to the end of
      its grace, expires after that, and is refused before. */
  lemma {:induction false} TickWindow(o: Order, h: nat)
    requires o.nx != o.t.ns && o.t.sh + o.nx * o.t.iv + o.t.gh < TWO128
    ensures var due := o.t.sh + o.nx * o.t.iv;
            TurnAt(o, h) == if h < due then Refuse else if h <= due + o.t.gh then Send else Expire
    ensures TurnAt(o.(nx := o.t.ns), h) == Refuse
  {}

  /** A tick whose heights leave 128 bits is refused. */
  lemma {:induction false} TickOverflows(o: Order, h: nat)
    requires o.t.sh + o.nx * o.t.iv + o.t.gh >= TWO128
    ensures TurnAt(o, h) == Refuse
  {}

  /** A receipt settles exactly when it is for the current slice, pays at least the minimum,
      the products of its output with both rates and the order's new total fit 128 bits, and
      its fee, if any, has a payee. */
  lemma {:induction false} SettlesIff(o: Order, k: nat, out: nat)
    ensures var bps := if o.t.fc < 100 then o.t.fc else 100; var f := Split(o.t.fc, out);
            Settles(o, k, Some(out))
            <==> k == o.nx && out >= o.t.mo && out * bps < TWO128 && out * 50 < TWO128
                 && o.fo + out - f.fee - f.cut < TWO128 && (f.fee > 0 ==> o.ex != "")
    ensures !Settles(o, k, None)
  {}

  // ---- the tally of settlements ----

  datatype Tally = Tally(expired: nat, filled: nat, back: nat, spent: nat, fees: nat, cuts: nat, pays: nat, out: nat)

  function Count(t: Terms, r: Tally, s: Settle): Tally {
    match s.fate
    case Expired(_) => r.(expired := r.expired + 1, back := r.back + SliceIn(t, s.k))
    case Filled(out, fee, cut, payout) =>
      r.(filled := r.filled + 1, spent := r.spent + SliceIn(t, s.k),
         fees := r.fees + fee, cuts := r.cuts + cut, pays := r.pays + payout, out := r.out + out)
  }

  /** Counts, inputs and outputs of the settlements so far. */
  function TallyOf(t: Terms, ss: seq<Settle>): Tally {
    if ss == [] then Tally(0, 0, 0, 0, 0, 0, 0, 0) else Count(t, TallyOf(t, ss[..|ss| - 1]), ss[|ss| - 1])
  }

  lemma {:induction false} TallyAppend(t: Terms, ss: seq<Settle>, s: Settle)
    ensures TallyOf(t, ss + [s]) == Count(t, TallyOf(t, ss), s)
  {}

  /** The inputs of the first n slices. */
  function InputOf(t: Terms, n: nat): nat { if n == 0 then 0 else InputOf(t, n - 1) + SliceIn(t, n - 1) }

  lemma {:induction false} InputSum(t: Terms, n: nat)
    requires n <= t.ns
    ensures InputOf(t, n) == t.si * n + (if n == t.ns && n > 0 then t.le else 0)
  {
    if n > 0 {
      InputSum(t, n - 1);
      assert t.si * n == t.si * (n - 1) + t.si;
    }
  }

  // ---- the invariant ----

  /** Slices settle in order, each once. */
  predicate InOrder(d: Desk) {
    d.o.nx == |d.settled| && forall j :: 0 <= j < |d.settled| ==> d.settled[j].k == j
  }

  /** Every swap was sent for a slice the cursor had reached, with that slice's input, while
      the slice was due and not past its grace. */
  predicate SentOk(d: Desk) {
    forall i :: 0 <= i < |d.sent| ==>
      var s := d.sent[i];
      && s.k != d.o.t.ns && s.k <= d.o.nx && s.amt == SliceIn(d.o.t, s.k)
      && Due(d.o.t, s.k) <= s.h <= Due(d.o.t, s.k) + d.o.t.gh
  }

  /** Who last sent a swap for slice k. */
  function LastBy(sent: seq<Sent>, k: nat): Option<Account> {
    if sent == [] then None
    else if sent[|sent| - 1].k == k then Some(sent[|sent| - 1].who)
    else LastBy(sent[..|sent| - 1], k)
  }

  lemma {:induction false} LastByAppend(sent: seq<Sent>, s: Sent, k: nat)
    ensures LastBy(sent + [s], k) == if s.k == k then Some(s.who) else LastBy(sent, k)
  {
    assert (sent + [s])[..|sent|] == sent;
  }

  lemma {:induction false} LastByNone(sent: seq<Sent>, k: nat)
    requires forall i :: 0 <= i < |sent| ==> sent[i].k < k
    ensures LastBy(sent, k) == None
    decreases |sent|
  {
    if sent != [] { LastByNone(sent[..|sent| - 1], k); }
  }

  lemma {:induction false} LastBySome(sent: seq<Sent>, i: nat)
    requires i < |sent|
    ensures LastBy(sent, sent[i].k).Some?
    decreases |sent|
  {
    if i < |sent| - 1 { LastBySome(sent[..|sent| - 1], i); }
  }

  /** The stored executor is the last sender for the current slice, if there is one. */
  predicate Current(d: Desk) { LastBy(d.sent, d.o.nx).Some? ==> LastBy(d.sent, d.o.nx) == Some(d.o.ex) }

  /** The counters are the tally of the settlements. */
  predicate Tallied(d: Desk) {
    var r := TallyOf(d.o.t, d.settled);
    && d.o.xp == r.expired && d.o.nx == r.expired + r.filled
    && d.o.rx == r.back && r.back + r.spent == InputOf(d.o.t, d.o.nx)
    && d.fees == r.fees && d.burned == r.cuts && d.o.fo == r.pays && r.fees + r.cuts + r.pays == r.out
  }

  /** Slices expired only past their grace; a filled one met the minimum and was split by the
      fee rule without loss, its fee has a payee, and one filled by a receipt of the order's
      own had been sent, and pays the account that was the last to send it. */
  predicate Exact(d: Desk) {
    forall j :: 0 <= j < |d.settled| ==>
      match d.settled[j].fate
      case Expired(h) => Due(d.o.t, j) + d.o.t.gh < h
      case Filled(out, _, _, _) =>
        && (d.settled[j].own ==> LastBy(d.sent, j) == Some(d.settled[j].payee))
        && (d.settled[j].payee == "" ==> d.settled[j].fate.fee == 0)
        && out >= d.o.t.mo && d.settled[j].fate == Split(d.o.t.fc, out)
  }

  predicate DeskInv(d: Desk) { InOrder(d) && SentOk(d) && Tallied(d) && Exact(d) && Current(d) }

  lemma {:induction false} TickKeeps(d: Desk, h: nat, who: Account)
    requires DeskInv(d)
    ensures DeskInv(Tick(d, h, who))
  {
    match TurnAt(d.o, h)
    case Refuse =>
    case Expire =>
      ExpireTallied(d, h, who);
      LastByNone(d.sent, d.o.nx + 1);
    case Send => SendKeeps(d, h, who);
  }

  lemma {:induction false} SendKeeps(d: Desk, h: nat, who: Account)
    requires DeskInv(d) && TurnAt(d.o, h).Send?
    ensures DeskInv(Tick(d, h, who))
  {
    var s := Sent(d.o.nx, SliceIn(d.o.t, d.o.nx), h, who);
    LastByAppend(d.sent, s, d.o.nx);
    forall j | 0 <= j < |d.settled| ensures LastBy(d.sent + [s], j) == LastBy(d.sent, j) { LastByAppend(d.sent, s, j); }
  }

  lemma {:induction false} ExpireTallied(d: Desk, h: nat, who: Account)
    requires InOrder(d) && Tallied(d) && TurnAt(d.o, h).Expire?
    ensures Tallied(Tick(d, h, who))
  {
    TallyAppend(d.o.t, d.settled, Settle(d.o.nx, Expired(h), true, ""));
  }

  lemma {:induction false} OnSliceKeeps(d: Desk, k: nat, out: Option<nat>, own: bool)
    requires DeskInv(d) && (own ==> LastBy(d.sent, k).Some?)
    ensures DeskInv(OnSlice(d, k, out, own))
  {
    if Settles(d.o, k, out) {
      OnSliceTallied(d, k, out, own);
      OnSliceExact(d, k, out, own);
      LastByNone(d.sent, d.o.nx + 1);
    }
  }

  lemma {:induction false} OnSliceTallied(d: Desk, k: nat, out: Option<nat>, own: bool)
    requires InOrder(d) && Tallied(d) && Settles(d.o, k, out)
    ensures Tallied(OnSlice(d, k, out, own))
  {
    TallyAppend(d.o.t, d.settled, Settle(k, Split(d.o.t.fc, out.value), own, d.o.ex));
  }

  lemma {:induction false} OnSliceExact(d: Desk, k: nat, out: Option<nat>, own: bool)
    requires InOrder(d) && Exact(d) && Current(d) && Settles(d.o, k, out) && (own ==> LastBy(d.sent, k).Some?)
    ensures Exact(OnSlice(d, k, out, own))
  {}

  /** The fee of a receipt that settles goes to the sender of its swap if and only if that
      account was also the last to send the slice. */
  lemma {:induction false} FeePayeeIff(d: Desk, i: nat, out: Option<nat>)
    requires DeskInv(d) && i < |d.sent| && Settles(d.o, d.sent[i].k, out)
    ensures var d' := OnSlice(d, d.sent[i].k, out, true);
            && d'.settled == d.settled + [Settle(d.sent[i].k, Split(d.o.t.fc, out.value), true, d.o.ex)]
            && (d.o.ex == d.sent[i].who <==> LastBy(d.sent, d.sent[i].k) == Some(d.sent[i].who))
  {
    LastBySome(d.sent, i);
  }

  lemma {:induction false} CreateKeeps(deposit: nat, pool: string, ns: nat, iv: nat, start: nat, gh: nat, mo: nat,
                                       fc: nat, h: nat)
    ensures var r := Create(deposit, pool, ns, iv, start, gh, mo, fc, h);
            r.Some? ==> DeskInv(r.value) && InputOf(r.value.o.t, r.value.o.t.ns) == deposit && r.value.o.t.ns == ns
  {
    var r := Create(deposit, pool, ns, iv, start, gh, mo, fc, h);
    if r.Some? { InputSum(r.value.o.t, ns); }
  }

  // ---- runs over all orders ----

  datatype Event =
    | Open(deposit: nat, pool: string, ns: nat, iv: nat, start: nat, gh: nat, mo: nat, fc: nat, h: nat)
    | TickAt(id: nat, h: nat, who: Account)
    | Receipt(id: nat, i: nat, out: Option<nat>)
    | Foreign(id: nat, k: nat, out: Option<nat>)

  /** Orders by id, the last id, each order's deposit, and the records that receipts for
      unknown orders leave until an order of that id is created. */
  datatype World = World(last: nat, desks: map<nat, Desk>, deposits: map<nat, nat>, strays: map<nat, Desk>)

  /** What the fields of an unknown order read as. */
  const BLANK := Desk(Order(Terms(0, 0, 0, 0, 0, 100, 0, 0), 0, 0, 0, 0, ""), [], [], 0, 0)

  function StrayAt(strays: map<nat, Desk>, id: nat): Desk { if id in strays then strays[id] else BLANK }

  function Next(w: World, e: Event): World {
    match e
    case Open(deposit, pool, ns, iv, start, gh, mo, fc, h) =>
      (match Create(deposit, pool, ns, iv, start, gh, mo, fc, h)
       case None => w
       case Some(d) =>
         World(w.last + 1, w.desks[w.last + 1 := d], w.deposits[w.last + 1 := deposit], w.strays - {w.last + 1}))
    case TickAt(id, h, who) =>
      if id in w.desks then w.(desks := w.desks[id := Tick(w.desks[id], h, who)]) else w
    case Receipt(id, i, out) =>
      if id in w.desks && i < |w.desks[id].sent|
      then w.(desks := w.desks[id := OnSlice(w.desks[id], w.desks[id].sent[i].k, out, true)]) else w
    case Foreign(id, k, out) =>
      if id in w.desks then w.(desks := w.desks[id := OnSlice(w.desks[id], k, out, false)])
      else w.(strays := w.strays[id := OnSlice(StrayAt(w.strays, id), k, out, false)])
  }

  /** A new order gets the next id; the others stay. */
  lemma {:induction false} OpenAdds(w: World, e: Event, d: Desk)
    requires e.Open? && Create(e.deposit, e.pool, e.ns, e.iv, e.start, e.gh, e.mo, e.fc, e.h) == Some(d)
    ensures var w' := Next(w, e); var id := w.last + 1;
            && w'.last == id && id in w'.desks && w'.desks[id] == d && w'.deposits[id] == e.deposit
            && (forall o :: o in w.desks && o != id ==> o in w'.desks && w'.desks[o] == w.desks[o])
            && (forall o :: o in w'.desks && o != id ==> o in w.desks)
            && id !in w'.strays
  {}

  /** An order's invariant, with all slice inputs adding up to its deposit. */
  predicate Kept(d: Desk, deposit: nat) { DeskInv(d) && InputOf(d.o.t, d.o.t.ns) == deposit }

  predicate Inv(w: World) {
    && w.deposits.Keys == w.desks.Keys
    && (forall id :: id in w.desks ==> id <= w.last && Kept(w.desks[id], w.deposits[id]))
  }

  lemma {:induction false} PutKeeps(w: World, id: nat, d: Desk, deposit: nat, strays: map<nat, Desk>)
    requires Inv(w) && Kept(d, deposit) && (id in w.desks ==> w.deposits[id] == deposit)
    ensures Inv(World(if id > w.last then id else w.last, w.desks[id := d], w.deposits[id := deposit], strays))
  {
  }

  lemma {:induction false} StepKeeps(w: World, e: Event)
    requires Inv(w)
    ensures Inv(Next(w, e))
  {
    match e
    case Open(_, _, _, _, _, _, _, _, _) => OpenKeeps(w, e);
    case TickAt(_, _, _) => TickAtKeeps(w, e);
    case Receipt(_, _, _) => ReceiptKeeps(w, e);
    case Foreign(_, _, _) => ForeignKeeps(w, e);
  }

  lemma {:induction false} TickAtKeeps(w: World, e: Event)
    requires Inv(w) && e.TickAt?
    ensures Inv(Next(w, e))
  {
    if e.id in w.desks {
      TickKeeps(w.desks[e.id], e.h, e.who);
      ReplaceKeeps(w, e.id, Tick(w.desks[e.id], e.h, e.who));
    }
  }

  lemma {:induction false} ForeignKeeps(w: World, e: Event)
    requires Inv(w) && e.Foreign?
    ensures Inv(Next(w, e))
  {
    if e.id in w.desks {
      OnSliceKeeps(w.desks[e.id], e.k, e.out, false);
      ReplaceKeeps(w, e.id, OnSlice(w.desks[e.id], e.k, e.out, false));
    }
  }

  lemma {:induction false} OpenKeeps(w: World, e: Event)
    requires Inv(w) && e.Open?
    ensures Inv(Next(w, e))
  {
    CreateKeeps(e.deposit, e.pool, e.ns, e.iv, e.start, e.gh, e.mo, e.fc, e.h);
    var r := Create(e.deposit, e.pool, e.ns, e.iv, e.start, e.gh, e.mo, e.fc, e.h);
    if r.Some? { PutKeeps(w, w.last + 1, r.value, e.deposit, w.strays - {w.last + 1}); }
  }

  lemma {:induction false} ReceiptKeeps(w: World, e: Event)
    requires Inv(w) && e.Receipt?
    ensures Inv(Next(w, e))
  {
    if e.id in w.desks && e.i < |w.desks[e.id].sent| {
      var d := w.desks[e.id];
      assert DeskInv(d) by { assert Kept(d, w.deposits[e.id]); }
      LastBySome(d.sent, e.i);
      OnSliceKeeps(d, d.sent[e.i].k, e.out, true);
      ReplaceKeeps(w, e.id, OnSlice(d, d.sent[e.i].k, e.out, true));
    }
  }

  lemma {:induction false} ReplaceKeeps(w: World, id: nat, d: Desk)
    requires Inv(w) && id in w.desks && DeskInv(d) && d.o.t == w.desks[id].o.t
    ensures Inv(w.(desks := w.desks[id := d]))
  {}

  function Run(w: World, es: seq<Event>): World
    decreases |es|
  {
    if es == [] then w else Run(Next(w, es[0]), es[1..])
  }

  /** Over every interleaving of creations, ticks and receipts (late, failed, repeated or
      foreign). */
  lemma {:induction false} RunKeeps(w: World, es: seq<Event>)
    requires Inv(w)
    ensures Inv(Run(w, es))
    decreases |es|
  {
    if es != [] {
      StepKeeps(w, es[0]);
      RunKeeps(Next(w, es[0]), es[1..]);
    }
  }

  const NEW_ENGINE := World(0, map[], map[], map[])

  /** No slice settles twice, and an order whose cursor is at its end has spent or set aside
      its whole deposit; fees, cuts and payouts make up all outputs. */
  lemma {:induction false} OrderAccounts(es: seq<Event>, id: nat)
    requires id in Run(NEW_ENGINE, es).desks
    ensures var w := Run(NEW_ENGINE, es);
            var d := w.desks[id];
            var r := TallyOf(d.o.t, d.settled);
            && id in w.deposits && DeskInv(d) && d.o.nx == d.o.xp + r.filled
            && (forall i, j :: 0 <= i < j < |d.settled| ==> d.settled[i].k != d.settled[j].k)
            && (d.o.nx == d.o.t.ns ==> r.spent + d.o.rx == w.deposits[id])
            && d.fees == r.fees && d.burned == r.cuts && d.o.fo == r.pays && r.fees + r.cuts + r.pays == r.out
  {
    RunKeeps(NEW_ENGINE, es);
  }

  // ---- the cursor's bound ----

  /** A foreign receipt settles an order whose slices are all settled. */
  predicate Overrun(w: World, e: Event, id: nat) {
    && e.Foreign? && e.id == id && id in w.desks
    && w.desks[id].o.nx == w.desks[id].o.t.ns && Settles(w.desks[id].o, e.k, e.out)
  }

  predicate NoOverrun(w: World, es: seq<Event>, id: nat)
    decreases |es|
  {
    es == [] || (!Overrun(w, es[0], id) && NoOverrun(Next(w, es[0]), es[1..], id))
  }

  /** The order has the same terms, its settlements are a continuation, and its cursor has
      not gone back; it has passed the last slice if `over`. */
  predicate Later(d: Desk, d': Desk, over: bool) {
    && d'.o.t == d.o.t && d.settled <= d'.settled && d.o.nx <= d'.o.nx
    && (d.o.nx <= d.o.t.ns ==> (d'.o.nx <= d.o.t.ns <==> !over))
  }

  lemma {:induction false} TickLater(d: Desk, h: nat, who: Account)
    ensures Later(d, Tick(d, h, who), false)
  {
  }

  lemma {:induction false} OnSliceLater(d: Desk, k: nat, out: Option<nat>, own: bool)
    ensures Later(d, OnSlice(d, k, out, own), d.o.nx == d.o.t.ns && Settles(d.o, k, out))
  {
  }

  lemma {:induction false} OpenLater(w: World, e: Event, id: nat)
    requires e.Open? && id in w.desks && id <= w.last
    ensures id in Next(w, e).desks && Later(w.desks[id], Next(w, e).desks[id], false)
  {
  }

  /** A receipt of the order's own never settles a slice past the last one. */
  lemma {:induction false} ReceiptLater(d: Desk, i: nat, out: Option<nat>)
    requires SentOk(d) && i < |d.sent|
    ensures Later(d, OnSlice(d, d.sent[i].k, out, true), false)
  {}

  /** An order stays, and only a foreign receipt takes its cursor past the last slice. */
  lemma {:induction false} CursorStep(w: World, e: Event, id: nat)
    requires Inv(w) && id in w.desks
    ensures id in Next(w, e).desks && Later(w.desks[id], Next(w, e).desks[id], Overrun(w, e, id))
  {
    var d := w.desks[id];
    assert id <= w.last && SentOk(d) by { assert Kept(d, w.deposits[id]); }
    StepOf(w, e, id, d);
  }

  lemma {:induction false} StepOf(w: World, e: Event, id: nat, d: Desk)
    requires id in w.desks && id <= w.last && d == w.desks[id] && SentOk(d)
    ensures id in Next(w, e).desks && Later(d, Next(w, e).desks[id], Overrun(w, e, id))
  {
    match e
    case Open(_, _, _, _, _, _, _, _, _) => OpenLater(w, e, id);
    case TickAt(i, h, who) => if i == id { TickLater(d, h, who); }
    case Receipt(i, n, out) => if i == id && n < |d.sent| { ReceiptLater(d, n, out); }
    case Foreign(i, k, out) => if i == id { OnSliceLater(d, k, out, false); }
  }

  lemma {:induction false} CursorRun(w: World, es: seq<Event>, id: nat)
    requires Inv(w) && id in w.desks
    ensures id in Run(w, es).desks
    ensures Later(w.desks[id], Run(w, es).desks[id], !NoOverrun(w, es, id))
    decreases |es|
  {
    if es != [] {
      CursorStep(w, es[0], id);
      StepKeeps(w, es[0]);
      CursorRun(Next(w, es[0]), es[1..], id);
    }
  }

  /** No event before an order's creation overruns it. */
  lemma {:induction false} CursorFrom(w: World, es: seq<Event>, id: nat)
    requires Inv(w) && id !in w.desks && id in Run(w, es).desks
    ensures Run(w, es).desks[id].o.nx <= Run(w, es).desks[id].o.t.ns <==> NoOverrun(w, es, id)
    decreases |es|
  {
    var w' := Next(w, es[0]);
    StepKeeps(w, es[0]);
    if id in w'.desks {
      Created(w, es[0], id);
      CursorRun(w', es[1..], id);
    } else {
      CursorFrom(w', es[1..], id);
    }
  }

  lemma {:induction false} Created(w: World, e: Event, id: nat)
    requires id !in w.desks && id in Next(w, e).desks
    ensures Next(w, e).desks[id].o.nx == 0
  {
  }

  /** Over every interleaving an order's cursor stays within its slices if and only if no
      foreign receipt settles it after its last slice. */
  lemma {:induction false} CursorBoundIff(es: seq<Event>, id: nat)
    requires id in Run(NEW_ENGINE, es).desks
    ensures Run(NEW_ENGINE, es).desks[id].o.nx <= Run(NEW_ENGINE, es).desks[id].o.t.ns
            <==> NoOverrun(NEW_ENGINE, es, id)
  {
    CursorFrom(NEW_ENGINE, es, id);
  }

  /** An overrun order never again has its cursor at its last slice, which finalization
      asks for. */
  lemma {:induction false} OverrunIsFinal(w: World, es: seq<Event>, id: nat)
    requires Inv(w) && id in w.desks && w.desks[id].o.nx > w.desks[id].o.t.ns
    ensures id in Run(w, es).desks && Run(w, es).desks[id].o.nx > Run(w, es).desks[id].o.t.ns
  {
    CursorRun(w, es, id);
  }

  /** The first order of an engine, and what an event makes of it. */
  lemma {:induction false} OpenOne(w: World, e: Event, d: Desk)
    requires w.last == 0 && e.Open?
    requires Create(e.deposit, e.pool, e.ns, e.iv, e.start, e.gh, e.mo, e.fc, e.h) == Some(d)
    ensures 1 in Next(w, e).desks && Next(w, e).desks[1] == d
  {}

  function DeskStep(d: Desk, e: Event): Desk {
    match e
    case Open(_, _, _, _, _, _, _, _, _) => d
    case TickAt(_, h, who) => Tick(d, h, who)
    case Receipt(_, i, out) => if i < |d.sent| then OnSlice(d, d.sent[i].k, out, true) else d
    case Foreign(_, k, out) => OnSlice(d, k, out, false)
  }

  lemma {:induction false} EventOne(w: World, e: Event)
    requires 1 in w.desks && !e.Open? && e.id == 1
    ensures 1 in Next(w, e).desks && Next(w, e).desks[1] == DeskStep(w.desks[1], e)
  {}

  /** An order of one slice, its deposit its input. */
  predicate OneSlice(e: Event, d: Desk) {
    && e.Open? && e.deposit > 0 && e.pool != "" && e.ns == 1 && e.iv == 1 && e.start == 1 && e.gh > 0
    && d == Desk(Order(Terms(1, 1, 1, e.gh, e.mo, e.fc, e.deposit, 0), 0, 0, 0, 0, ""), [], [], 0, 0)
  }

  lemma {:induction false} OneSliceOpens(w: World, e: Event, d: Desk)
    requires w.last == 0 && OneSlice(e, d)
    ensures 1 in Next(w, e).desks && Next(w, e).desks[1] == d
  {
    DivModUnique(e.deposit, e.ns, e.deposit, 0);
    OpenOne(w, e, d);
  }

  predicate Forged(es: seq<Event>) {
    && |es| == 3 && es[0] == Open(5, "pool", 1, 1, 1, 1, 0, 0, 0)
    && (forall j :: 1 <= j <= 2 ==> es[j].Foreign? && es[j].id == 1 && es[j].k == j - 1 && es[j].out == Some(7))
  }

  /** The smallest overrun, in an engine without orders: an order of one slice, filled
      without a swap and then once more. */
  lemma {:induction false} ForgedReceiptsOverrun(w: World, es: seq<Event>)
    requires w.last == 0 && Forged(es)
    ensures 1 in Run(w, es).desks
    ensures var d := Run(w, es).desks[1]; d.o.nx == 2 && d.o.t.ns == 1 && d.sent == []
  {
    ForgedFrom(w, es, Desk(Order(Terms(1, 1, 1, 1, 0, 0, 5, 0), 0, 0, 0, 0, ""), [], [], 0, 0));
  }

  lemma {:induction false} ForgedFrom(w: World, es: seq<Event>, d: Desk)
    requires w.last == 0 && |es| == 3 && OneSlice(es[0], d) && d.o.t.mo == 0 && d.o.t.fc == 0
    requires forall j :: 1 <= j <= 2 ==> es[j].Foreign? && es[j].id == 1 && es[j].k == j - 1 && es[j].out == Some(7)
    ensures 1 in Run(w, es).desks
    ensures var d' := Run(w, es).desks[1]; d'.o.nx == 2 && d'.o.t.ns == 1 && d'.sent == []
  {
    var w1 := Next(w, es[0]);
    RunCons(w, es);
    RunTwo(w1, es[1..]);
    OneSliceOpens(w, es[0], d);
    EventOne(w1, es[1]);
    EventOne(Next(w1, es[1]), es[2]);
    ForgedFills(d, es[1].k, es[1].out);
    ForgedFills(DeskStep(d, es[1]), es[2].k, es[2].out);
  }

  lemma {:induction false} RunCons(w: World, es: seq<Event>)
    requires es != []
    ensures Run(w, es) == Run(Next(w, es[0]), es[1..])
  {}

  lemma {:induction false} RunTwo(w: World, es: seq<Event>)
    requires |es| == 2
    ensures Run(w, es) == Next(Next(w, es[0]), es[1])
  {
    RunCons(w, es);
    RunCons(Next(w, es[0]), es[1..]);
    assert es[1..][1..] == [];
  }

  lemma {:induction false} ForgedFills(d: Desk, k: nat, out: Option<nat>)
    requires k == d.o.nx && out == Some(7) && d.o.t.mo == 0 && d.o.t.fc == 0 && d.o.fo <= 7
    ensures var d' := OnSlice(d, k, out, false);
            d'.o.nx == d.o.nx + 1 && d'.o.t == d.o.t && d'.sent == d.sent && d'.o.fo <= d.o.fo + 7
  {
  }

  predicate Raced(es: seq<Event>) {
    && |es| == 4 && es[0] == Open(100, "pool", 1, 1, 1, 5, 0, 100, 0)
    && es[1].TickAt? && es[1].id == 1 && es[1].h == 1 && es[1].who == "a"
    && es[2].TickAt? && es[2].id == 1 && es[2].h == 2 && es[2].who == "b"
    && es[3].Receipt? && es[3].id == 1 && es[3].i == 0 && es[3].out == Some(100)
  }

  /** In an engine without orders: the swap that fills the slice is a's, and the fee is b's. */
  lemma {:induction false} RacedFeeGoesAstray(w: World, es: seq<Event>)
    requires w.last == 0 && Raced(es)
    ensures 1 in Run(w, es).desks
    ensures var d := Run(w, es).desks[1];
            && d.sent == [Sent(0, 100, 1, "a"), Sent(0, 100, 2, "b")]
            && d.settled == [Settle(0, Filled(100, 1, 0, 99), true, "b")]
  {
    var d := Desk(Order(Terms(1, 1, 1, 5, 0, 100, 100, 0), 0, 0, 0, 0, ""), [], [], 0, 0);
    RacedFrom(w, es, d);
    RacedTicks(d, es[1], es[2]);
    RacedFill(DeskStep(DeskStep(d, es[1]), es[2]), es[3]);
  }

  lemma {:induction false} RacedFrom(w: World, es: seq<Event>, d: Desk)
    requires w.last == 0 && |es| == 4 && OneSlice(es[0], d)
    requires forall j :: 1 <= j <= 3 ==> !es[j].Open? && es[j].id == 1
    ensures 1 in Run(w, es).desks
    ensures Run(w, es).desks[1] == DeskStep(DeskStep(DeskStep(d, es[1]), es[2]), es[3])
  {
    var w1 := Next(w, es[0]);
    var w2 := Next(w1, es[1]);
    RunCons(w, es);
    RunCons(w1, es[1..]);
    RunTwo(w2, es[1..][1..]);
    OneSliceOpens(w, es[0], d);
    EventOne(w1, es[1]);
    EventOne(w2, es[2]);
    EventOne(Next(w2, es[2]), es[3]);
  }

  /** A fresh order that both accounts tick while its first slice is due. */
  lemma {:induction false} RacedTicks(d: Desk, a: Event, b: Event)
    requires d == Desk(Order(d.o.t, 0, 0, 0, 0, ""), [], [], 0, 0) && d.o.t == Terms(1, 1, 1, 5, 0, 100, 100, 0)
    requires a.TickAt? && b.TickAt? && 1 <= a.h <= 6 && 1 <= b.h <= 6
    ensures DeskStep(DeskStep(d, a), b)
         == Desk(Order(d.o.t, 0, 0, 0, 0, b.who), [Sent(0, 100, a.h, a.who), Sent(0, 100, b.h, b.who)], [], 0, 0)
  {
    RacedTick(d, a);
    RacedTick(DeskStep(d, a), b);
  }

  lemma {:induction false} RacedTick(d: Desk, e: Event)
    requires d.o.t == Terms(1, 1, 1, 5, 0, 100, 100, 0) && d.o.nx == 0 && e.TickAt? && 1 <= e.h <= 6
    ensures DeskStep(d, e) == d.(o := d.o.(ex := e.who), sent := d.sent + [Sent(0, 100, e.h, e.who)])
  {}

  lemma {:induction false} RacedFill(d: Desk, e: Event)
    requires d.o.t.mo == 0 && d.o.t.fc == 100 && d.o.nx == 0 && d.o.fo == 0 && d.o.ex != "" && d.settled == []
    requires e.Receipt? && e.i == 0 && e.out == Some(100) && |d.sent| > 0 && d.sent[0].k == 0
    ensures var d' := DeskStep(d, e);
            d'.settled == [Settle(0, Filled(100, 1, 0, 99), true, d.o.ex)] && d'.sent == d.sent
  {}

  /** What was settled stays settled: later events only add to the settlements. */
  lemma {:induction false} SettledIsFinal(w: World, es: seq<Event>, id: nat)
    requires id in w.desks && Inv(w)
    ensures id in Run(w, es).desks && w.desks[id].settled <= Run(w, es).desks[id].settled
            && w.desks[id].o.t == Run(w, es).desks[id].o.t
  {
    CursorRun(w, es, id);
  }

  // ---- the contract ----

  /** Orders in storage, with the promises and transfers each has emitted. */
  class Engine {
    var last: nat
    var desks: map<nat, Desk>
    var strays: map<nat, Desk>

    constructor ()
      ensures last == 0 && desks == map[] && strays == map[]
    {
      last, desks, strays := 0, map[], map[];
    }

    method Open(deposit: nat, pool: string, ns: nat, iv: nat, start: nat, gh: nat, mo: nat, fc: nat, h: nat)
      returns (id: Option<nat>)
      modifies this
      ensures match Create(deposit, pool, ns, iv, start, gh, mo, fc, h)
              case None => id == None && last == old(last) && desks == old(desks) && strays == old(strays)
              case Some(d) =>
                && id == Some(last) && last == old(last) + 1 && desks == old(desks)[last := d]
                && strays == old(strays) - {last}
    {
      if deposit == 0 || pool == "" || ns == 0 || 1000 < ns || iv == 0 || gh == 0 { return None; }
      if start == 0 && h + iv >= TWO128 { return None; }
      var startAt := if start == 0 then h + iv else start;
      last := last + 1;
      Floor(deposit, ns);
      var sliceIn := deposit / ns;
      var used := sliceIn * ns;
      var t := Terms(ns, iv, startAt, gh, mo, fc, sliceIn, deposit - used);
      desks := desks[last := Desk(Order(t, 0, 0, 0, 0, ""), [], [], 0, 0)];
      strays := strays - {last};
      return Some(last);
    }

    method TickOrder(id: nat, h: nat, who: Account) returns (ok: bool)
      modifies this
      ensures last == old(last) && strays == old(strays)
      ensures ok == (id in old(desks) && !TurnAt(old(desks)[id].o, h).Refuse?)
      ensures desks == if id in old(desks) then old(desks)[id := Tick(old(desks)[id], h, who)] else old(desks)
    {
      if id !in desks { return false; }
      var o := desks[id].o;
      if o.nx == o.t.ns {
        assert desks == desks[id := desks[id]];
        return false;
      }
      var dueAt := o.t.sh + o.nx * o.t.iv;
      if dueAt + o.t.gh >= TWO128 || h < dueAt {
        assert desks == desks[id := desks[id]];
        return false;
      }
      if dueAt + o.t.gh < h { TickExpired(id, o.nx, h); } else { TickSwap(id, o.nx, who, h); }
      return true;
    }

    method TickExpired(id: nat, cursor: nat, h: nat)
      requires id in desks && desks[id].o.nx == cursor
      modifies this
      ensures last == old(last) && strays == old(strays)
      ensures var d := old(desks)[id];
              desks == old(desks)[id :=
                d.(o := d.o.(nx := cursor + 1, xp := d.o.xp + 1, rx := d.o.rx + SliceIn(d.o.t, cursor)),
                   settled := d.settled + [Settle(cursor, Expired(h), true, "")])]
    {
      var d := desks[id];
      var o := d.o.(nx := cursor + 1, xp := d.o.xp + 1);
      if cursor + 1 == o.t.ns {
        o := o.(rx := o.rx + (o.t.si + o.t.le));
      } else {
        o := o.(rx := o.rx + o.t.si);
      }
      desks := desks[id := d.(o := o, settled := d.settled + [Settle(cursor, Expired(h), true, "")])];
    }

    method TickSwap(id: nat, cursor: nat, who: Account, h: nat)
      requires id in desks && desks[id].o.nx == cursor
      modifies this
      ensures last == old(last) && strays == old(strays)
      ensures var d := old(desks)[id];
              desks == old(desks)[id := d.(o := d.o.(ex := who),
                                           sent := d.sent + [Sent(cursor, SliceIn(d.o.t, cursor), h, who)])]
    {
      var d := desks[id];
      var amt := if cursor + 1 == d.o.t.ns then d.o.t.si + d.o.t.le else d.o.t.si;
      desks := desks[id := d.(o := d.o.(ex := who), sent := d.sent + [Sent(cursor, amt, h, who)])];
    }

    /** The callback with slice number k and promise result `out`; `own` marks the receipt of
        a swap the order sent, which the code cannot tell. */
    method TakeReceipt(id: nat, k: nat, out: Option<nat>, own: bool) returns (payout: Option<nat>)
      modifies this
      ensures last == old(last)
      ensures var d := if id in old(desks) then old(desks)[id] else StrayAt(old(strays), id);
              && desks == (if id in old(desks) then old(desks)[id := OnSlice(d, k, out, own)] else old(desks))
              && strays == (if id in old(desks) then old(strays) else old(strays)[id := OnSlice(d, k, out, own)])
              && payout == if Settles(d.o, k, out) then Some(Split(d.o.t.fc, out.value).payout) else None
    {
      var d := if id in desks then desks[id] else StrayAt(strays, id);
      if Settles(d.o, k, out) {
        var f := Split(d.o.t.fc, out.value);
        d := d.(o := d.o.(fo := d.o.fo + f.payout, nx := d.o.nx + 1),
                settled := d.settled + [Settle(k, f, own, d.o.ex)]);
        d := d.(fees := d.fees + f.fee, burned := d.burned + f.cut);
        payout := Some(f.payout);
      } else {
        payout := None;
      }
      if id in desks { desks := desks[id := d]; } else { strays := strays[id := d]; }
    }
  }
}
