/** The spending ledger of autonomous grants (internal/autonomy/accounting.go). */
module Ledgers {
  import opened Text
  import opened Receipts
  import opened Amounts

  /** The fields of a Grant that the ledger reads; `valid` is the rest of Grant.Validate. */
  datatype Grant = Grant(
    id: string, version: uint64, valid: bool, perAction: string, aggregateCap: string, rollingCap: string,
    rollingWindow: Time)

  datatype State = Reserved | Committed

  datatype Reservation = Reservation(
    grantID: string, grantVersion: uint64, occurrenceID: string, amount: string, at: Time, state: State)

  predicate PositiveInt(s: string) { ParseBig(s).Some? && ParseBig(s).value > 0 }

  predicate ValidGrant(g: Grant) {
    && g.valid && g.id != "" && g.version != 0
    && (g.perAction != "" ==> PositiveInt(g.perAction))
    && (g.aggregateCap != "" ==> PositiveInt(g.aggregateCap))
    && (g.rollingCap != "" ==> PositiveInt(g.rollingCap) && g.rollingWindow > 0)
  }

  function Units(s: string): nat { if PositiveInt(s) then ParseBig(s).value else 0 }

  type Book = map<string, Reservation>

  // ---------------------------------------------------------------- sums over the book

  /** Which reservations a sum counts: those of one grant version, all of them or those
      stamped after `from`, or after `from` and up to `to`. */
  datatype Lens = Live(id: string, version: uint64)
    | Since(id: string, version: uint64, from: Time)
    | Within(id: string, version: uint64, from: Time, to: Time)

  predicate Counts(lens: Lens, r: Reservation) {
    && r.grantID == lens.id && r.grantVersion == lens.version
    && (lens.Live? || lens.from < r.at)
    && (lens.Within? ==> r.at <= lens.to)
  }

  function Weight(lens: Lens, r: Reservation): nat { if Counts(lens, r) then Units(r.amount) else 0 }

  ghost function Sum(book: Book, keys: set<string>, lens: Lens): nat
    requires keys <= book.Keys
    decreases |keys|
  {
    if keys == {} then 0 else
      var k :| k in keys;
      Weight(lens, book[k]) + Sum(book, keys - {k}, lens)
  }

  ghost function Total(book: Book, lens: Lens): nat { Sum(book, book.Keys, lens) }

  lemma {:induction false} SumRemove(book: Book, keys: set<string>, lens: Lens, k: string)
    requires keys <= book.Keys && k in keys
    ensures Sum(book, keys, lens) == Weight(lens, book[k]) + Sum(book, keys - {k}, lens)
    decreases |keys|
  {
    var c :| c in keys && Sum(book, keys, lens) == Weight(lens, book[c]) + Sum(book, keys - {c}, lens);
    if c != k {
      SumRemove(book, keys - {c}, lens, k);
      SumRemove(book, keys - {k}, lens, c);
      assert keys - {c} - {k} == keys - {k} - {c};
    }
  }

  lemma SumOfNone(book: Book, lens: Lens)
    ensures Sum(book, {}, lens) == 0
  {
  }

  lemma {:induction false} SumAgrees(a: Book, b: Book, keys: set<string>, lens: Lens)
    requires keys <= a.Keys && keys <= b.Keys
    requires forall k | k in keys :: Weight(lens, a[k]) == Weight(lens, b[k])
    ensures Sum(a, keys, lens) == Sum(b, keys, lens)
    decreases |keys|
  {
    if keys != {} {
      var k :| k in keys;
      SumRemove(a, keys, lens, k);
      SumRemove(b, keys, lens, k);
      SumAgrees(a, b, keys - {k}, lens);
    }
  }

  lemma {:induction false} SumBounded(book: Book, keys: set<string>, small: Lens, large: Lens)
    requires keys <= book.Keys
    requires forall k | k in keys :: Weight(small, book[k]) <= Weight(large, book[k])
    ensures Sum(book, keys, small) <= Sum(book, keys, large)
    decreases |keys|
  {
    if keys != {} {
      var k :| k in keys;
      SumRemove(book, keys, small, k);
      SumRemove(book, keys, large, k);
      SumBounded(book, keys - {k}, small, large);
    }
  }

  lemma TotalInserted(book: Book, k: string, r: Reservation, lens: Lens)
    requires k !in book
    ensures Total(book[k := r], lens) == Total(book, lens) + Weight(lens, r)
  {
    var next := book[k := r];
    SumRemove(next, next.Keys, lens, k);
    assert next.Keys - {k} == book.Keys;
    SumAgrees(next, book, book.Keys, lens);
  }

  lemma TotalRestated(book: Book, k: string, state: State, lens: Lens)
    requires k in book
    ensures Total(book[k := book[k].(state := state)], lens) == Total(book, lens)
  {
    var next := book[k := book[k].(state := state)];
    assert next.Keys == book.Keys;
    SumAgrees(next, book, book.Keys, lens);
  }

  lemma TotalRemoved(book: Book, k: string, lens: Lens)
    requires k in book
    ensures Total(book - {k}, lens) + Weight(lens, book[k]) == Total(book, lens)
  {
    SumRemove(book, book.Keys, lens, k);
    assert (book - {k}).Keys == book.Keys - {k};
    SumAgrees(book - {k}, book, book.Keys - {k}, lens);
  }

  // ---------------------------------------------------------------- one operation

  datatype Action
    = Reserve(grant: Grant, occurrence: string, amount: string, at: Time)
    | Commit(committed: string)
    | Release(released: string)

  predicate WithinAggregate(g: Grant, total: nat, amount: nat) {
    g.aggregateCap != "" ==> total + amount <= Units(g.aggregateCap)
  }

  predicate WithinRolling(g: Grant, window: nat, amount: nat) {
    g.rollingCap != "" ==> window + amount <= Units(g.rollingCap)
  }

  ghost predicate Fits(book: Book, g: Grant, amount: string, at: Time) {
    && WithinAggregate(g, Total(book, Live(g.id, g.version)), Units(amount))
    && WithinRolling(g, Total(book, Since(g.id, g.version, at - g.rollingWindow)), Units(amount))
  }

  ghost function After(book: Book, a: Action): Book {
    match a
    case Reserve(g, occurrence, amount, at) =>
      if ValidGrant(g) && PositiveInt(amount) && occurrence !in book && Fits(book, g, amount, at)
      then book[occurrence := Reservation(g.id, g.version, occurrence, amount, at, Reserved)] else book
    case Commit(occurrence) =>
      if occurrence in book then book[occurrence := book[occurrence].(state := Committed)] else book
    case Release(occurrence) =>
      if occurrence in book && book[occurrence].state == Reserved then book - {occurrence} else book
  }

  /** A new reservation is made exactly when the book that holds it respects the caps of its
      grant: in all, and from the start of the window that ends at its instant. */
  lemma ReservesIff(book: Book, g: Grant, occurrence: string, amount: string, at: Time)
    requires ValidGrant(g) && PositiveInt(amount) && occurrence !in book
    ensures After(book, Reserve(g, occurrence, amount, at))
         == var made := book[occurrence := Reservation(g.id, g.version, occurrence, amount, at, Reserved)];
            if && (g.aggregateCap == "" || Total(made, Live(g.id, g.version)) <= Units(g.aggregateCap))
               && (g.rollingCap == ""
                   || Total(made, Since(g.id, g.version, at - g.rollingWindow)) <= Units(g.rollingCap))
            then made else book
  {
    var r := Reservation(g.id, g.version, occurrence, amount, at, Reserved);
    TotalInserted(book, occurrence, r, Live(g.id, g.version));
    TotalInserted(book, occurrence, r, Since(g.id, g.version, at - g.rollingWindow));
  }

  datatype Answer = Refused | Answered(reserved: bool)

  class Ledger {
    var reservations: Book

    constructor ()
      ensures reservations == map[]
    {
      reservations := map[];
    }

    /** The summing loop of Reserve, in whatever order the map is ranged over. */
    method Sums(g: Grant, at: Time) returns (total: nat, window: nat)
      ensures total == Total(reservations, Live(g.id, g.version))
      ensures g.rollingWindow > 0 ==> window == Total(reservations, Since(g.id, g.version, at - g.rollingWindow))
    {
      hide Units, Sum;
      total, window := 0, 0;
      var keys := reservations.Keys;
      ghost var live, recent := Live(g.id, g.version), Since(g.id, g.version, at - g.rollingWindow);
      while keys != {}
        invariant keys <= reservations.Keys
        invariant total + Sum(reservations, keys, live) == Total(reservations, live)
        invariant g.rollingWindow > 0 ==> window + Sum(reservations, keys, recent) == Total(reservations, recent)
        decreases |keys|
      {
        var k :| k in keys;
        var r := reservations[k];
        SumRemove(reservations, keys, live, k);
        SumRemove(reservations, keys, recent, k);
        if r.grantID == g.id && r.grantVersion == g.version {
          total := total + Units(r.amount);
          if g.rollingWindow > 0 && at - r.at < g.rollingWindow {
            window := window + Units(r.amount);
          }
        }
        keys := keys - {k};
      }
      SumOfNone(reservations, live);
      SumOfNone(reservations, recent);
    }

    method ReserveAmount(g: Grant, occurrence: string, amount: string, at: Time) returns (answer: Answer)
      modifies this
      ensures reservations == After(old(reservations), Reserve(g, occurrence, amount, at))
      ensures answer == Refused <==> !ValidGrant(g) || !PositiveInt(amount)
      ensures answer.Answered? ==>
                (answer.reserved <==> occurrence in reservations && reservations[occurrence].grantID == g.id
                                      && reservations[occurrence].grantVersion == g.version)
    {
      if !ValidGrant(g) || !PositiveInt(amount) {
        return Refused;
      }
      if occurrence in reservations {
        var held := reservations[occurrence];
        return Answered(held.grantID == g.id && held.grantVersion == g.version);
      }
      var total, window := Sums(g, at);
      if !WithinAggregate(g, total, Units(amount)) {
        return Answered(false);
      }
      if !WithinRolling(g, window, Units(amount)) {
        return Answered(false);
      }
      reservations := reservations[occurrence := Reservation(g.id, g.version, occurrence, amount, at, Reserved)];
      return Answered(true);
    }

    method CommitOccurrence(occurrence: string) returns (found: bool)
      modifies this
      ensures found <==> occurrence in old(reservations)
      ensures reservations == After(old(reservations), Commit(occurrence))
    {
      if occurrence !in reservations {
        return false;
      }
      reservations := reservations[occurrence := reservations[occurrence].(state := Committed)];
      return true;
    }

    method ReleaseOccurrence(occurrence: string)
      modifies this
      ensures reservations == After(old(reservations), Release(occurrence))
    {
      if occurrence in reservations && reservations[occurrence].state == Reserved {
        reservations := reservations - {occurrence};
      }
    }
  }

  // ---------------------------------------------------------------- whole runs

  ghost function Run(book: Book, actions: seq<Action>): Book
    decreases |actions|
  {
    if actions == [] then book else Run(After(book, actions[0]), actions[1..])
  }

  /** Caps are fixed per grant version: every Reserve carries the grant of the table. */
  predicate Uses(actions: seq<Action>, table: (string, uint64) -> Grant) {
    forall i | 0 <= i < |actions| && actions[i].Reserve? ::
      actions[i].grant == table(actions[i].grant.id, actions[i].grant.version)
  }

  /** What the window that ends at `t` holds. */
  ghost function InWindow(book: Book, g: Grant, t: Time): nat {
    Total(book, Within(g.id, g.version, t - g.rollingWindow, t))
  }

  /** The live amounts of one grant version respect its aggregate cap, and at every instant
      those stamped within the window before it respect the rolling cap. */
  ghost predicate WithinCaps(book: Book, g: Grant) {
    && (g.aggregateCap != "" ==> Total(book, Live(g.id, g.version)) <= Units(g.aggregateCap))
    && (g.rollingCap != "" ==>
          forall t: Time :: InWindow(book, g, t) <= Units(g.rollingCap))
  }

  /** A reservation fits every window it falls into: what such a window held before is part
      of what Reserve added up, also when clocks run backwards. */
  lemma ReserveKeepsWindow(book: Book, g: Grant, occurrence: string, amount: string, at: Time, t: Time)
    requires occurrence !in book && Fits(book, g, amount, at) && g.rollingCap != "" && g.rollingWindow > 0
    requires InWindow(book, g, t) <= Units(g.rollingCap)
    ensures var r := Reservation(g.id, g.version, occurrence, amount, at, Reserved);
            InWindow(book[occurrence := r], g, t) <= Units(g.rollingCap)
  {
    var lens := Within(g.id, g.version, t - g.rollingWindow, t);
    var r := Reservation(g.id, g.version, occurrence, amount, at, Reserved);
    TotalInserted(book, occurrence, r, lens);
    if Counts(lens, r) {
      SumBounded(book, book.Keys, lens, Since(g.id, g.version, at - g.rollingWindow));
    }
  }

  lemma ReserveOthers(book: Book, r: Reservation, occurrence: string, lens: Lens)
    requires occurrence !in book && !(r.grantID == lens.id && r.grantVersion == lens.version)
    ensures Total(book[occurrence := r], lens) == Total(book, lens)
  {
    TotalInserted(book, occurrence, r, lens);
  }

  lemma ReserveKeepsCaps(book: Book, payer: Grant, occurrence: string, amount: string, at: Time, g: Grant)
    requires WithinCaps(book, g) && ValidGrant(g) && occurrence !in book && Fits(book, payer, amount, at)
    requires payer.id == g.id && payer.version == g.version ==> payer == g
    ensures WithinCaps(book[occurrence := Reservation(payer.id, payer.version, occurrence, amount, at, Reserved)], g)
  {
    var r := Reservation(payer.id, payer.version, occurrence, amount, at, Reserved);
    var next := book[occurrence := r];
    TotalInserted(book, occurrence, r, Live(g.id, g.version));
    if g.rollingCap != "" {
      forall t: Time
        ensures InWindow(next, g, t) <= Units(g.rollingCap)
      {
        assert InWindow(book, g, t) <= Units(g.rollingCap);
        if payer == g {
          ReserveKeepsWindow(book, g, occurrence, amount, at, t);
        } else {
          ReserveOthers(book, r, occurrence, Within(g.id, g.version, t - g.rollingWindow, t));
        }
      }
    }
  }

  lemma ShrinkKeepsCaps(book: Book, next: Book, g: Grant)
    requires WithinCaps(book, g) && forall lens: Lens :: Total(next, lens) <= Total(book, lens)
    ensures WithinCaps(next, g)
  {
    if g.rollingCap != "" {
      forall t: Time
        ensures InWindow(next, g, t) <= Units(g.rollingCap)
      {
        assert InWindow(book, g, t) <= Units(g.rollingCap);
      }
    }
  }

  lemma StepKeepsCaps(book: Book, a: Action, g: Grant)
    requires WithinCaps(book, g) && ValidGrant(g)
    requires a.Reserve? && a.grant.id == g.id && a.grant.version == g.version ==> a.grant == g
    ensures WithinCaps(After(book, a), g)
  {
    var next := After(book, a);
    if next != book {
      match a
      case Reserve(payer, occurrence, amount, at) => ReserveKeepsCaps(book, payer, occurrence, amount, at, g);
      case Commit(k) =>
        forall lens: Lens ensures Total(next, lens) <= Total(book, lens) { TotalRestated(book, k, Committed, lens); }
        ShrinkKeepsCaps(book, next, g);
      case Release(k) =>
        forall lens: Lens ensures Total(next, lens) <= Total(book, lens) { TotalRemoved(book, k, lens); }
        ShrinkKeepsCaps(book, next, g);
    }
  }

  lemma {:induction false} RunKeepsCaps(book: Book, actions: seq<Action>, table: (string, uint64) -> Grant, g: Grant)
    requires WithinCaps(book, g) && ValidGrant(g) && Uses(actions, table) && table(g.id, g.version) == g
    ensures WithinCaps(Run(book, actions), g)
    decreases |actions|
  {
    if actions != [] {
      StepKeepsCaps(book, actions[0], g);
      RunKeepsCaps(After(book, actions[0]), actions[1..], table, g);
    }
  }

  /** After any sequence of operations, with any clock values, every grant version is within
      its caps. */
  lemma CapsHold(actions: seq<Action>, table: (string, uint64) -> Grant, g: Grant)
    requires ValidGrant(g) && Uses(actions, table) && table(g.id, g.version) == g
    ensures WithinCaps(Run(map[], actions), g)
  {
    var empty: Book := map[];
    assert empty.Keys == {};
    RunKeepsCaps(empty, actions, table, g);
  }
}
