/**
 * The backend process: the listing cache keyed by id (`vehicleCache`, a `Map`
 * whose insertion order the listing queries see), the ids not yet marked seen
 * (`newVehicleIds`), the registered push tokens (`pushTokens`, a `Set`, kept
 * here as a duplicate-free sequence in insertion order), the time of the last
 * scrape and the `isFirstScrape` flag; the admission of a scraped batch, the
 * push notification it triggers and the pruning of dead tokens, the HTTP
 * handlers that read or change this state, and the polling-delay rule.
 *
 * The clock is a parameter (`now`, milliseconds since the epoch, one reading
 * per scrape), `Math.random()` is an integer `rand` standing for
 * `rand / 2^53`, the push service's answer is a parameter, and the de-AT
 * number formatting of the notification body is a parameter `formatPrice`.
 */
module Server {
  import opened Wrappers
  import opened Text
  import Lists
  import Scraper

  // ---------------------------------------------------------------------
  // The cache and its admission rule
  // ---------------------------------------------------------------------

  /** `{ ...vehicle, isNew, firstSeenAt }`: a cached listing. */
  datatype CachedVehicle = CachedVehicle(vehicle: Scraper.Vehicle, isNew: bool, firstSeenAt: int)

  /** `vehicleCache` (its keys in insertion order, and its entries) with `newVehicleIds`. */
  datatype Store = Store(order: seq<string>, entries: map<string, CachedVehicle>, newIds: set<string>)

  /**
   * The invariant the handlers keep: the key order lists each cached id once,
   * every entry is filed under its own id, and an entry is flagged new exactly
   * when its id is in `newVehicleIds`.
   */
  predicate StoreValid(st: Store) {
    Lists.NoDup(st.order)
    && (forall id :: id in st.entries ==> id in st.order)
    && (forall i :: 0 <= i < |st.order| ==> st.order[i] in st.entries)
    && (forall id :: id in st.entries ==> st.entries[id].vehicle.id == id)
    && (forall id :: id in st.newIds ==> id in st.entries)
    && (forall id :: id in st.entries ==> (st.entries[id].isNew <==> id in st.newIds))
  }

  /** The store part way through the loop of `scrapeAndStore`, with `newlyFoundVehicles`. */
  datatype Admission = Admission(store: Store, found: seq<CachedVehicle>)

  /**
   * One iteration of that loop: a cached id is skipped; a new one is cached
   * with `isNew` set unless this is the seeding (first) scrape, and outside
   * the seeding scrape it also joins `newVehicleIds` and the found records.
   */
  function Admit(a: Admission, v: Scraper.Vehicle, seeding: bool, now: int): Admission {
    if v.id in a.store.entries then a
    else
      var c := CachedVehicle(v, !seeding, now);
      var st := Store(a.store.order + [v.id], a.store.entries[v.id := c],
                      if seeding then a.store.newIds else a.store.newIds + {v.id});
      Admission(st, if seeding then a.found else a.found + [c])
  }

  /** The whole loop over a batch, in batch order. */
  function AdmitAll(a: Admission, vs: seq<Scraper.Vehicle>, seeding: bool, now: int): Admission
    decreases |vs|
  {
    if vs == [] then a else Admit(AdmitAll(a, vs[..|vs| - 1], seeding, now), vs[|vs| - 1], seeding, now)
  }

  lemma AdmitValid(a: Admission, v: Scraper.Vehicle, seeding: bool, now: int)
    requires StoreValid(a.store)
    ensures StoreValid(Admit(a, v, seeding, now).store)
  {
    if v.id !in a.store.entries {
      var st := Admit(a, v, seeding, now).store;
      assert v.id !in a.store.order;
      assert forall i :: 0 <= i < |a.store.order| ==> st.order[i] == a.store.order[i];
    }
  }

  /** Admission keeps the store invariant. */
  lemma {:induction false} AdmitAllValid(a: Admission, vs: seq<Scraper.Vehicle>, seeding: bool, now: int)
    requires StoreValid(a.store)
    ensures StoreValid(AdmitAll(a, vs, seeding, now).store)
    decreases |vs|
  {
    if vs != [] {
      AdmitAllValid(a, vs[..|vs| - 1], seeding, now);
      AdmitValid(AdmitAll(a, vs[..|vs| - 1], seeding, now), vs[|vs| - 1], seeding, now);
    }
  }

  /** The loop's step: admitting one more vehicle of the batch. */
  lemma AdmitAllStep(a: Admission, vs: seq<Scraper.Vehicle>, k: nat, seeding: bool, now: int)
    requires k < |vs|
    ensures AdmitAll(a, vs[..k + 1], seeding, now) == Admit(AdmitAll(a, vs[..k], seeding, now), vs[k], seeding, now)
  {
    assert vs[..k + 1][..k] == vs[..k];
  }

  /** What `scrapeAndStore` needs of a whole batch: the invariant holds, and the seeding scrape finds nothing new. */
  lemma AdmitBatch(st: Store, vs: seq<Scraper.Vehicle>, seeding: bool, now: int)
    requires StoreValid(st)
    ensures var r := AdmitAll(Admission(st, []), vs, seeding, now);
      StoreValid(r.store) && (seeding ==> r.found == [] && r.store.newIds == st.newIds)
  {
    AdmitAllValid(Admission(st, []), vs, seeding, now);
    AdmitAllFound(Admission(st, []), vs, seeding, now);
  }

  /** Entries already cached are never overwritten: their `isNew` and `firstSeenAt` survive. */
  lemma {:induction false} AdmitAllKeepsExisting(a: Admission, vs: seq<Scraper.Vehicle>, seeding: bool, now: int)
    ensures var r := AdmitAll(a, vs, seeding, now);
      forall id :: id in a.store.entries ==> id in r.store.entries && r.store.entries[id] == a.store.entries[id]
    decreases |vs|
  {
    if vs != [] {
      AdmitAllKeepsExisting(a, vs[..|vs| - 1], seeding, now);
    }
  }

  /** `vs[i]` is the first vehicle of the batch with id `id`. */
  predicate FirstWithId(vs: seq<Scraper.Vehicle>, id: string, i: int) {
    0 <= i < |vs| && vs[i].id == id && forall j :: 0 <= j < i ==> vs[j].id != id
  }

  /** After a batch the cached ids are the old ones plus the batch's. */
  lemma {:induction false} AdmitAllKeys(a: Admission, vs: seq<Scraper.Vehicle>, seeding: bool, now: int)
    ensures var r := AdmitAll(a, vs, seeding, now);
      forall id :: id in r.store.entries <==> id in a.store.entries || exists i :: 0 <= i < |vs| && vs[i].id == id
    decreases |vs|
  {
    if vs != [] {
      var p := vs[..|vs| - 1];
      var q := AdmitAll(a, p, seeding, now);
      var r := AdmitAll(a, vs, seeding, now);
      AdmitAllKeys(a, p, seeding, now);
      assert r == Admit(q, vs[|vs| - 1], seeding, now);
      forall id | id in r.store.entries
        ensures id in a.store.entries || exists i :: 0 <= i < |vs| && vs[i].id == id
      {
        if id in q.store.entries && id !in a.store.entries {
          var i :| 0 <= i < |p| && p[i].id == id;
          assert vs[i] == p[i];
        }
      }
      forall id | exists i :: 0 <= i < |vs| && vs[i].id == id
        ensures id in r.store.entries
      {
        var i :| 0 <= i < |vs| && vs[i].id == id;
        if i < |p| {
          assert p[i] == vs[i];
        }
      }
    }
  }

  /**
   * Each newly cached id holds the first vehicle of the batch with that id,
   * flagged new unless seeding, stamped `now`: a repeated id is admitted once.
   */
  lemma AdmitAllEntries(a: Admission, vs: seq<Scraper.Vehicle>, seeding: bool, now: int)
    ensures var r := AdmitAll(a, vs, seeding, now);
      forall id :: id in r.store.entries && id !in a.store.entries ==>
        exists i :: FirstWithId(vs, id, i) && r.store.entries[id] == CachedVehicle(vs[i], !seeding, now)
  {
    var r := AdmitAll(a, vs, seeding, now);
    forall id | id in r.store.entries && id !in a.store.entries
      ensures exists i :: FirstWithId(vs, id, i) && r.store.entries[id] == CachedVehicle(vs[i], !seeding, now)
    {
      AdmitAllEntry(a, vs, seeding, now, id);
    }
  }

  /** `AdmitAllEntries` for one id. */
  lemma {:induction false} AdmitAllEntry(a: Admission, vs: seq<Scraper.Vehicle>, seeding: bool, now: int, id: string)
    requires id in AdmitAll(a, vs, seeding, now).store.entries && id !in a.store.entries
    ensures exists i ::
      FirstWithId(vs, id, i) && AdmitAll(a, vs, seeding, now).store.entries[id] == CachedVehicle(vs[i], !seeding, now)
    decreases |vs|
  {
    var p := vs[..|vs| - 1];
    var v := vs[|vs| - 1];
    var q := AdmitAll(a, p, seeding, now);
    var r := AdmitAll(a, vs, seeding, now);
    assert r == Admit(q, v, seeding, now);
    if id in q.store.entries {
      AdmitAllEntry(a, p, seeding, now, id);
      var i :| FirstWithId(p, id, i) && q.store.entries[id] == CachedVehicle(p[i], !seeding, now);
      assert forall j :: 0 <= j <= i ==> vs[j] == p[j];
      assert FirstWithId(vs, id, i);
    } else {
      AdmitAllKeys(a, p, seeding, now);
      assert id == v.id;
      assert forall j :: 0 <= j < |p| ==> p[j].id != id;
      assert FirstWithId(vs, id, |vs| - 1);
    }
  }

  /**
   * What a batch adds: the key order grows at its end; the seeding scrape
   * finds nothing and leaves `newVehicleIds` alone; a later scrape finds
   * exactly the newly cached records, in key order, and adds their ids to
   * `newVehicleIds`.
   */
  lemma {:induction false} AdmitAllFound(a: Admission, vs: seq<Scraper.Vehicle>, seeding: bool, now: int)
    ensures var r := AdmitAll(a, vs, seeding, now);
      |a.store.order| <= |r.store.order| && r.store.order[..|a.store.order|] == a.store.order
    ensures var r := AdmitAll(a, vs, seeding, now);
      seeding ==> r.found == a.found && r.store.newIds == a.store.newIds
    ensures var r := AdmitAll(a, vs, seeding, now);
      !seeding ==>
        |r.found| - |a.found| == |r.store.order| - |a.store.order|
        && r.found[..|a.found|] == a.found
        && (forall k :: |a.store.order| <= k < |r.store.order| ==>
              r.store.order[k] in r.store.entries
              && r.found[|a.found| + k - |a.store.order|] == r.store.entries[r.store.order[k]])
        && (forall id :: id in r.store.newIds <==> id in a.store.newIds || (id in r.store.entries && id !in a.store.entries))
    decreases |vs|
  {
    if vs != [] {
      var p := vs[..|vs| - 1];
      var v := vs[|vs| - 1];
      var q := AdmitAll(a, p, seeding, now);
      var r := AdmitAll(a, vs, seeding, now);
      AdmitAllFound(a, p, seeding, now);
      AdmitAllKeepsExisting(a, p, seeding, now);
      assert r == Admit(q, v, seeding, now);
      if v.id !in q.store.entries {
        assert r.store.order == q.store.order + [v.id];
        assert r.store.order[..|a.store.order|] == q.store.order[..|a.store.order|];
        if !seeding {
          assert r.found == q.found + [CachedVehicle(v, true, now)];
          assert r.found[..|a.found|] == q.found[..|a.found|];
          forall k | |a.store.order| <= k < |r.store.order|
            ensures r.store.order[k] in r.store.entries
              && r.found[|a.found| + k - |a.store.order|] == r.store.entries[r.store.order[k]]
          {
            if k < |q.store.order| {
              assert r.store.order[k] == q.store.order[k];
              assert q.store.order[k] != v.id;
            }
          }
        }
      }
    }
  }

  /** When every id of a batch is already cached, the batch changes nothing. */
  lemma {:induction false} AdmitAllKnown(a: Admission, vs: seq<Scraper.Vehicle>, seeding: bool, now: int)
    requires forall i :: 0 <= i < |vs| ==> vs[i].id in a.store.entries
    ensures AdmitAll(a, vs, seeding, now) == a
    decreases |vs|
  {
    if vs != [] {
      AdmitAllKnown(a, vs[..|vs| - 1], seeding, now);
    }
  }

  /** Scraping the same batch again admits nothing and finds nothing new. */
  lemma AdmitAllIdempotent(a: Admission, vs: seq<Scraper.Vehicle>, seeding: bool, now: int, seeding2: bool, later: int)
    ensures var r := AdmitAll(a, vs, seeding, now);
      AdmitAll(r, vs, seeding2, later) == r
  {
    AdmitAllKeys(a, vs, seeding, now);
    AdmitAllKnown(AdmitAll(a, vs, seeding, now), vs, seeding2, later);
  }

  /** `vehicle.isNew = false` for every id of `newVehicleIds`, then `newVehicleIds.clear()`. */
  function MarkedSeen(st: Store): (r: Store)
    ensures r.order == st.order && r.newIds == {} && r.entries.Keys == st.entries.Keys
  {
    Store(st.order,
          map id | id in st.entries :: if id in st.newIds then st.entries[id].(isNew := false) else st.entries[id],
          {})
  }

  /**
   * After mark-seen no entry is flagged new; entries whose id was new have
   * only their flag cleared; all other entries are unchanged.
   */
  lemma MarkedSeenEffect(st: Store)
    requires StoreValid(st)
    ensures StoreValid(MarkedSeen(st))
    ensures forall id :: id in st.entries ==> !MarkedSeen(st).entries[id].isNew
    ensures forall id :: id in st.entries && id in st.newIds ==>
      MarkedSeen(st).entries[id] == CachedVehicle(st.entries[id].vehicle, false, st.entries[id].firstSeenAt)
    ensures forall id :: id in st.entries && id !in st.newIds ==> MarkedSeen(st).entries[id] == st.entries[id]
  {
  }

  // ---------------------------------------------------------------------
  // Push notifications
  // ---------------------------------------------------------------------

  /** One message of the batch sent to the push service. */
  datatype Message = Message(to: string, sound: string, title: string, body: string, vehicleId: string)

  /** One delivery ticket: its `status` and its `details.error`, if any. */
  datatype Ticket = Ticket(status: string, detailsError: Option<string>)

  /** The push service's answer: the request or its JSON failed, or a body with an optional `data` ticket list. */
  datatype PushResponse = SendFailed | Delivered(data: Option<seq<Ticket>>)

  /** "Novo vozilo!" for one vehicle, "N novih vozila!" for N of them. */
  function NotifyTitle(n: nat): string {
    if n == 1 then "Novo vozilo!" else NatToString(n) + " novih vozila!"
  }

  /** The title tells one vehicle from several, and for several it starts with their number. */
  lemma NotifyTitleCount(n: nat)
    ensures NotifyTitle(n) == "Novo vozilo!" <==> n == 1
    ensures n != 1 ==> DecimalValue(LeadingDigits(NotifyTitle(n))) == n
  {
    if n != 1 {
      var d := NatToString(n);
      assert NotifyTitle(n)[0] == d[0];
      assert IsDigit(NotifyTitle(n)[0]);
      assert NotifyTitle(n) == d + " novih vozila!";
      LeadingDigitsOfNumeral(d, " novih vozila!");
      DecimalOfNatToString(n);
    }
  }

  /** `price?.toLocaleString("de-AT") || "N/A"`, the formatting itself being `formatPrice`. */
  function PriceText(price: Option<JsFloat>, formatPrice: JsFloat -> string): (r: string)
    ensures r != ""
    ensures price.None? ==> r == "N/A"
  {
    if price.Some? && formatPrice(price.value) != "" then formatPrice(price.value) else "N/A"
  }

  /** For one vehicle its title and price; otherwise the first title and how many others there are. */
  function NotifyBody(vs: seq<CachedVehicle>, formatPrice: JsFloat -> string): string
    requires vs != []
  {
    if |vs| == 1 then vs[0].vehicle.title + " - €" + PriceText(vs[0].vehicle.price, formatPrice)
    else vs[0].vehicle.title + " i još " + NatToString(|vs| - 1) + " vozila"
  }

  /** The message the loop of `sendPushNotifications` builds for a token. */
  function MessageTo(token: string, vs: seq<CachedVehicle>, formatPrice: JsFloat -> string): Message
    requires vs != []
  {
    Message(token, "default", NotifyTitle(|vs|), NotifyBody(vs, formatPrice), vs[0].vehicle.id)
  }

  /** One message per token, in token order, all naming the first new vehicle. */
  function MessagesFor(tokens: seq<string>, vs: seq<CachedVehicle>, formatPrice: JsFloat -> string): (r: seq<Message>)
    requires vs != []
    ensures |r| == |tokens|
    ensures forall i :: 0 <= i < |r| ==> r[i].to == tokens[i] && r[i].vehicleId == vs[0].vehicle.id
    ensures forall i :: 0 <= i < |r| ==> r[i].title == NotifyTitle(|vs|)
  {
    seq(|tokens|, i requires 0 <= i < |tokens| => MessageTo(tokens[i], vs, formatPrice))
  }

  /** A ticket reporting that its device is no longer registered. */
  predicate Dead(t: Ticket) {
    t.status == "error" && t.detailsError == Some("DeviceNotRegistered")
  }

  /**
   * Where the `forEach` over the tickets stops: at the first dead ticket,
   * from `from` on, whose index has no message (reading `messages[index].to`
   * throws there, and the `catch` ends the pruning), or at the end.
   */
  function PruneEnd(tickets: seq<Ticket>, n: nat, from: nat): (r: nat)
    requires from <= |tickets|
    ensures from <= r <= |tickets|
    ensures r < |tickets| ==> r >= n && Dead(tickets[r])
    ensures forall k :: from <= k < r ==> k < n || !Dead(tickets[k])
    decreases |tickets| - from
  {
    if from == |tickets| then from
    else if from >= n && Dead(tickets[from]) then from
    else PruneEnd(tickets, n, from + 1)
  }

  /** The scan goes past index `i` exactly when ticket `i` has a message or is not dead. */
  lemma PruneEndAt(tickets: seq<Ticket>, n: nat, i: nat)
    requires i < |tickets| && i <= PruneEnd(tickets, n, 0)
    ensures i < PruneEnd(tickets, n, 0) <==> i < n || !Dead(tickets[i])
  {
  }

  /** The tokens of the messages whose ticket, among the first `i`, is dead, collected one ticket at a time. */
  function DeadBefore(messages: seq<Message>, tickets: seq<Ticket>, i: nat): set<string>
    decreases i
  {
    if i == 0 then {}
    else
      DeadBefore(messages, tickets, i - 1)
      + if i - 1 < |messages| && i - 1 < |tickets| && Dead(tickets[i - 1]) then {messages[i - 1].to} else {}
  }

  /** A token is collected exactly when some message among the first `i` with a dead ticket goes to it. */
  lemma {:induction false} DeadBeforeMembers(messages: seq<Message>, tickets: seq<Ticket>, i: nat)
    ensures forall x :: x in DeadBefore(messages, tickets, i) <==>
      exists k :: 0 <= k < i && k < |messages| && k < |tickets| && Dead(tickets[k]) && messages[k].to == x
    decreases i
  {
    if i > 0 {
      DeadBeforeMembers(messages, tickets, i - 1);
    }
  }

  /** Deleting the token of a dead ticket's message takes the registry one ticket further. */
  lemma PruneStep(tokens: seq<string>, messages: seq<Message>, tickets: seq<Ticket>, i: nat)
    requires i < |tickets| && i < |messages| && Dead(tickets[i])
    ensures Lists.Without(Lists.Without(tokens, DeadBefore(messages, tickets, i)), {messages[i].to})
         == Lists.Without(tokens, DeadBefore(messages, tickets, i + 1))
  {
    Lists.WithoutWithout(tokens, DeadBefore(messages, tickets, i), {messages[i].to});
  }

  /** The tokens that pruning deletes. */
  function DeadTokens(messages: seq<Message>, tickets: seq<Ticket>): set<string> {
    DeadBefore(messages, tickets, PruneEnd(tickets, |messages|, 0))
  }

  /** The token registry after the tickets of a sent batch have been read. */
  function Pruned(tokens: seq<string>, messages: seq<Message>, response: PushResponse): seq<string> {
    if response.Delivered? && response.data.Some? then Lists.Without(tokens, DeadTokens(messages, response.data.value))
    else tokens
  }

  /**
   * For a batch addressed to every registered token, pruning deletes exactly
   * the tokens whose ticket, matched by index, is dead, among the tickets
   * before the point where the `forEach` stops; with no more tickets than
   * messages, it stops at the end.
   */
  lemma PrunedExactly(tokens: seq<string>, vs: seq<CachedVehicle>, formatPrice: JsFloat -> string, tickets: seq<Ticket>)
    requires Lists.NoDup(tokens) && vs != []
    ensures |tickets| <= |tokens| ==> PruneEnd(tickets, |tokens|, 0) == |tickets|
    ensures var messages := MessagesFor(tokens, vs, formatPrice);
      forall k :: 0 <= k < |tokens| ==>
        (tokens[k] in Pruned(tokens, messages, Delivered(Some(tickets)))
         <==> !(k < PruneEnd(tickets, |tokens|, 0) && Dead(tickets[k])))
  {
    var messages := MessagesFor(tokens, vs, formatPrice);
    var e := PruneEnd(tickets, |tokens|, 0);
    var dead := DeadTokens(messages, tickets);
    assert dead == DeadBefore(messages, tickets, e);
    assert Pruned(tokens, messages, Delivered(Some(tickets))) == Lists.Without(tokens, dead);
    DeadBeforeMembers(messages, tickets, e);
    Lists.WithoutMembers(tokens, dead);
    forall k | 0 <= k < |tokens|
      ensures tokens[k] in dead <==> k < e && Dead(tickets[k])
    {
      if tokens[k] in dead {
        var j :| 0 <= j < e && j < |messages| && j < |tickets| && Dead(tickets[j]) && messages[j].to == tokens[k];
        assert messages[j].to == tokens[j];
      }
      if k < e && Dead(tickets[k]) {
        assert messages[k].to == tokens[k];
      }
    }
  }

  // ---------------------------------------------------------------------
  // The process state and its handlers
  // ---------------------------------------------------------------------

  /** The key of the listing sort: `new Date(firstSeenAt)`. */
  function FirstSeen(c: CachedVehicle): int {
    c.firstSeenAt
  }

  predicate IsPrivateEntry(c: CachedVehicle) {
    c.vehicle.isPrivate == 1
  }

  function IdIn(ids: set<string>): CachedVehicle -> bool {
    (c: CachedVehicle) => c.vehicle.id in ids
  }

  /** The `for (const token of pushTokens)` loop of `sendPushNotifications`. */
  method BuildMessages(tokens: seq<string>, vs: seq<CachedVehicle>, formatPrice: JsFloat -> string) returns (messages: seq<Message>)
    requires vs != []
    ensures messages == MessagesFor(tokens, vs, formatPrice)
  {
    messages := [];
    for i := 0 to |tokens|
      invariant messages == MessagesFor(tokens[..i], vs, formatPrice)
    {
      messages := messages + [MessageTo(tokens[i], vs, formatPrice)];
      assert tokens[..i + 1] == tokens[..i] + [tokens[i]];
    }
    assert tokens[..|tokens|] == tokens;
  }

  /**
   * The ticket loop of `sendPushNotifications` on the token registry: each
   * dead ticket deletes its message's token, until a dead ticket has no
   * message.
   */
  method PruneTokens(tokens: seq<string>, messages: seq<Message>, tickets: seq<Ticket>) returns (remaining: seq<string>)
    ensures remaining == Lists.Without(tokens, DeadTokens(messages, tickets))
  {
    remaining := tokens;
    assert DeadBefore(messages, tickets, 0) == {};
    Lists.WithoutNothing(tokens);
    ghost var stop := PruneEnd(tickets, |messages|, 0);
    var index := 0;
    while index < |tickets|
      invariant 0 <= index <= stop
      invariant remaining == Lists.Without(tokens, DeadBefore(messages, tickets, index))
    {
      PruneEndAt(tickets, |messages|, index);
      var ticket := tickets[index];
      if ticket.status == "error" && ticket.detailsError == Some("DeviceNotRegistered") {
        if index >= |messages| {
          break;
        }
        var token := messages[index].to;
        PruneStep(tokens, messages, tickets, index);
        remaining := Lists.Without(remaining, {token});
      } else {
        assert !Dead(ticket);
        assert DeadBefore(messages, tickets, index + 1) == DeadBefore(messages, tickets, index);
      }
      index := index + 1;
    }
  }

  /** The most records `GET /api/vehicles` returns. */
  const ListLimit: nat := 100

  class Backend {
    var vehicleCache: map<string, CachedVehicle>
    /** The keys of `vehicleCache` in insertion order. */
    var cacheOrder: seq<string>
    var newVehicleIds: set<string>
    var pushTokens: seq<string>
    var lastScrapeTime: Option<int>
    var isFirstScrape: bool

    function Snapshot(): Store
      reads this
    {
      Store(cacheOrder, vehicleCache, newVehicleIds)
    }

    /**
     * The store invariant; nothing is cached before the first scrape; a token
     * is registered at most once and never empty.
     */
    predicate Valid()
      reads this
    {
      StoreValid(Snapshot())
      && (isFirstScrape ==> vehicleCache == map[] && lastScrapeTime.None?)
      && Lists.NoDup(pushTokens) && "" !in pushTokens
    }

    constructor ()
      ensures Valid()
      ensures vehicleCache == map[] && cacheOrder == [] && newVehicleIds == {} && pushTokens == []
      ensures lastScrapeTime.None? && isFirstScrape
    {
      vehicleCache := map[];
      cacheOrder := [];
      newVehicleIds := {};
      pushTokens := [];
      lastScrapeTime := None;
      isFirstScrape := true;
    }

    /** `Array.from(vehicleCache.values())`: the entries in key insertion order. */
    function Values(): (r: seq<CachedVehicle>)
      reads this
      requires Valid()
      ensures |r| == |cacheOrder|
      ensures forall i :: 0 <= i < |r| ==> r[i] == vehicleCache[cacheOrder[i]]
    {
      seq(|cacheOrder|, i requires 0 <= i < |cacheOrder| && cacheOrder[i] in vehicleCache
                        reads this => vehicleCache[cacheOrder[i]])
    }

    /** An element of `Values()` is the entry filed under its own id. */
    lemma ValuesAreEntries(c: CachedVehicle)
      requires Valid() && c in Values()
      ensures c.vehicle.id in vehicleCache && vehicleCache[c.vehicle.id] == c
    {
      var i :| 0 <= i < |Values()| && Values()[i] == c;
      assert vehicleCache[cacheOrder[i]] == c;
    }

    /** Every cached record occurs in `Values()`, and none occurs twice. */
    lemma ValuesExactlyOnce()
      requires Valid()
      ensures Lists.NoDup(Values())
      ensures forall id :: id in vehicleCache ==> vehicleCache[id] in Values()
    {
      var vs := Values();
      forall i, j | 0 <= i < j < |vs|
        ensures vs[i] != vs[j]
      {
        assert vs[i].vehicle.id == cacheOrder[i] && vs[j].vehicle.id == cacheOrder[j];
      }
      forall id | id in vehicleCache
        ensures vehicleCache[id] in vs
      {
        var i :| 0 <= i < |cacheOrder| && cacheOrder[i] == id;
        assert vs[i] == vehicleCache[id];
      }
    }

    /**
     * `GET /api/vehicles`: the private records, latest `firstSeenAt` first: all
     * of them when there are no more than 100, otherwise 100 of them, none
     * first seen later than one left out; records seen at the same time keep
     * their cache order, so those kept are the first ones of their time.
     */
    function ListVehicles(): (r: seq<CachedVehicle>)
      reads this
      requires Valid()
      ensures |r| <= ListLimit
      ensures forall i :: 0 <= i < |r| ==>
        IsPrivateEntry(r[i]) && r[i].vehicle.id in vehicleCache && vehicleCache[r[i].vehicle.id] == r[i]
      ensures Lists.SortedDesc(r, FirstSeen)
      ensures Lists.LatestOf(r, Lists.Filter(Values(), IsPrivateEntry), FirstSeen, ListLimit)
    {
      var all := Lists.Filter(Values(), IsPrivateEntry);
      var r := Lists.Take(Lists.SortDesc(all, FirstSeen), ListLimit);
      Lists.TakeSortDesc(all, FirstSeen, ListLimit);
      PrivateEntries(r);
      r
    }

    /** Records drawn from the private records of `Values()` are private cache entries. */
    lemma PrivateEntries(r: seq<CachedVehicle>)
      requires Valid() && multiset(r) <= multiset(Lists.Filter(Values(), IsPrivateEntry))
      ensures forall i :: 0 <= i < |r| ==>
        IsPrivateEntry(r[i]) && r[i].vehicle.id in vehicleCache && vehicleCache[r[i].vehicle.id] == r[i]
    {
      var all := Lists.Filter(Values(), IsPrivateEntry);
      Lists.FilterMembers(Values(), IsPrivateEntry);
      forall i | 0 <= i < |r|
        ensures IsPrivateEntry(r[i]) && r[i].vehicle.id in vehicleCache && vehicleCache[r[i].vehicle.id] == r[i]
      {
        assert r[i] in multiset(all);
        ValuesAreEntries(r[i]);
      }
    }

    /**
     * `GET /api/vehicles/new`: exactly the cached records whose id is in
     * `newVehicleIds`, latest `firstSeenAt` first (the reply's `count` is the
     * length of this list).
     */
    function ListNewVehicles(): (r: seq<CachedVehicle>)
      reads this
      requires Valid()
      ensures forall i :: 0 <= i < |r| ==>
        r[i].vehicle.id in newVehicleIds && vehicleCache[r[i].vehicle.id] == r[i]
      ensures forall id :: id in newVehicleIds ==> vehicleCache[id] in r
      ensures newVehicleIds == {} ==> r == []
      ensures Lists.SortedDesc(r, FirstSeen)
      ensures Lists.NoDup(r) && |r| == |newVehicleIds|
      ensures forall k :: Lists.Filter(r, Lists.KeyIs(FirstSeen, k))
                       == Lists.Filter(Lists.Filter(Values(), IdIn(newVehicleIds)), Lists.KeyIs(FirstSeen, k))
    {
      var picked := Lists.Filter(Values(), IdIn(newVehicleIds));
      var r := Lists.SortDesc(picked, FirstSeen);
      forall k
        ensures Lists.Filter(r, Lists.KeyIs(FirstSeen, k)) == Lists.Filter(picked, Lists.KeyIs(FirstSeen, k))
      {
        Lists.SortDescStable(picked, FirstSeen, k);
      }
      ValuesExactlyOnce();
      Lists.FilterNoDup(Values(), IdIn(newVehicleIds));
      Lists.NoDupPerm(picked, r);
      forall i | 0 <= i < |r|
        ensures r[i].vehicle.id in newVehicleIds && vehicleCache[r[i].vehicle.id] == r[i]
      {
        assert r[i] in multiset(picked);
        PickedIsNew(r[i]);
      }
      forall id | id in newVehicleIds
        ensures vehicleCache[id] in r
      {
        NewIsPicked(id);
        assert vehicleCache[id] in multiset(picked);
      }
      assert |r| > 0 ==> r[0].vehicle.id in newVehicleIds;
      CountOfNew(r);
      r
    }

    /** A list holding each new id's record once, and nothing else, has one record per new id. */
    lemma CountOfNew(r: seq<CachedVehicle>)
      requires Valid() && Lists.NoDup(r)
      requires forall i :: 0 <= i < |r| ==>
        r[i].vehicle.id in newVehicleIds && vehicleCache[r[i].vehicle.id] == r[i]
      requires forall id :: id in newVehicleIds ==> vehicleCache[id] in r
      ensures |r| == |newVehicleIds|
    {
      var ids := seq(|r|, i requires 0 <= i < |r| => r[i].vehicle.id);
      assert Lists.NoDup(ids) by {
        forall i, j | 0 <= i < j < |ids|
          ensures ids[i] != ids[j]
        {
          assert r[i] != r[j];
        }
      }
      assert (set x | x in ids) == newVehicleIds by {
        forall id | id in newVehicleIds
          ensures id in ids
        {
          var i :| 0 <= i < |r| && r[i] == vehicleCache[id];
          assert ids[i] == id;
        }
      }
      Lists.NoDupCard(ids);
    }

    /** A record the new-vehicles filter keeps is the cache entry of a new id. */
    lemma PickedIsNew(c: CachedVehicle)
      requires Valid() && c in Lists.Filter(Values(), IdIn(newVehicleIds))
      ensures c.vehicle.id in newVehicleIds && vehicleCache[c.vehicle.id] == c
    {
      Lists.FilterMembers(Values(), IdIn(newVehicleIds));
      ValuesAreEntries(c);
    }

    /** The cache entry of every new id passes the new-vehicles filter. */
    lemma NewIsPicked(id: string)
      requires Valid() && id in newVehicleIds
      ensures vehicleCache[id] in Lists.Filter(Values(), IdIn(newVehicleIds))
    {
      Lists.FilterMembers(Values(), IdIn(newVehicleIds));
      var i :| 0 <= i < |cacheOrder| && cacheOrder[i] == id;
      assert Values()[i] == vehicleCache[id];
    }

    /**
     * `scrapeAndStore` on the batch `scraped` (what `scrapeWillhaben`
     * returned), at time `now`: the batch is admitted, the scrape time is set
     * and the seeding flag cleared, and when something new was found the push
     * notification goes out. The result is the number of records found new.
     */
    method ScrapeAndStore(scraped: seq<Scraper.Vehicle>, now: int, formatPrice: JsFloat -> string, response: PushResponse)
      returns (newCount: nat, messages: seq<Message>)
      requires Valid()
      modifies this
      ensures Valid()
      ensures var r := AdmitAll(Admission(old(Snapshot()), []), scraped, old(isFirstScrape), now);
        Snapshot() == r.store && newCount == |r.found|
        && messages == (if r.found == [] || old(pushTokens) == [] then [] else MessagesFor(old(pushTokens), r.found, formatPrice))
      ensures pushTokens == if messages == [] then old(pushTokens) else Pruned(old(pushTokens), messages, response)
      ensures lastScrapeTime == Some(now) && !isFirstScrape
      ensures old(isFirstScrape) ==> newCount == 0 && messages == [] && newVehicleIds == {}
    {
      ghost var st := Snapshot();
      assert isFirstScrape ==> st.newIds == {};
      var newlyFound := StoreBatch(scraped, now);
      AdmitBatch(st, scraped, isFirstScrape, now);
      lastScrapeTime := Some(now);
      isFirstScrape := false;
      messages := [];
      if |newlyFound| > 0 {
        messages := SendPushNotifications(newlyFound, formatPrice, response);
      }
      newCount := |newlyFound|;
    }

    /** The `for (const vehicle of vehicles)` loop of `scrapeAndStore`: each vehicle of the batch is admitted in turn. */
    method StoreBatch(scraped: seq<Scraper.Vehicle>, now: int) returns (newlyFound: seq<CachedVehicle>)
      modifies this
      ensures Admission(Snapshot(), newlyFound) == AdmitAll(Admission(old(Snapshot()), []), scraped, isFirstScrape, now)
      ensures isFirstScrape == old(isFirstScrape) && pushTokens == old(pushTokens) && lastScrapeTime == old(lastScrapeTime)
    {
      ghost var start := Admission(Snapshot(), []);
      newlyFound := [];
      var k := 0;
      while k < |scraped|
        invariant 0 <= k <= |scraped|
        invariant Admission(Snapshot(), newlyFound) == AdmitAll(start, scraped[..k], isFirstScrape, now)
        invariant isFirstScrape == old(isFirstScrape) && pushTokens == old(pushTokens)
        invariant lastScrapeTime == old(lastScrapeTime)
      {
        var vehicle := scraped[k];
        AdmitAllStep(start, scraped, k, isFirstScrape, now);
        if vehicle.id !in vehicleCache {
          var newVehicle := CachedVehicle(vehicle, !isFirstScrape, now);
          vehicleCache := vehicleCache[vehicle.id := newVehicle];
          cacheOrder := cacheOrder + [vehicle.id];
          if !isFirstScrape {
            newVehicleIds := newVehicleIds + {vehicle.id};
            newlyFound := newlyFound + [newVehicle];
          }
        }
        k := k + 1;
      }
      assert scraped[..k] == scraped;
    }

    /**
     * `sendPushNotifications`: nothing without tokens or vehicles; otherwise a
     * message per registered token, then the dead tokens reported by the
     * tickets are deleted.
     */
    method SendPushNotifications(newVehicles: seq<CachedVehicle>, formatPrice: JsFloat -> string, response: PushResponse)
      returns (messages: seq<Message>)
      requires Valid()
      modifies this
      ensures Valid()
      ensures messages == if old(pushTokens) == [] || newVehicles == [] then [] else MessagesFor(old(pushTokens), newVehicles, formatPrice)
      ensures pushTokens == if messages == [] then old(pushTokens) else Pruned(old(pushTokens), messages, response)
      ensures Snapshot() == old(Snapshot()) && lastScrapeTime == old(lastScrapeTime) && isFirstScrape == old(isFirstScrape)
    {
      messages := [];
      if |pushTokens| == 0 || |newVehicles| == 0 {
        return;
      }
      messages := BuildMessages(pushTokens, newVehicles, formatPrice);
      if response.SendFailed? || response.data.None? {
        return;
      }
      PruneDeadTokens(messages, response.data.value);
    }

    /** The `result.data.forEach` of `sendPushNotifications`: dead tokens are deleted until a dead ticket has no message. */
    method PruneDeadTokens(messages: seq<Message>, tickets: seq<Ticket>)
      requires Valid()
      modifies this
      ensures Valid()
      ensures pushTokens == Lists.Without(old(pushTokens), DeadTokens(messages, tickets))
      ensures Snapshot() == old(Snapshot()) && lastScrapeTime == old(lastScrapeTime) && isFirstScrape == old(isFirstScrape)
    {
      Lists.WithoutMembers(pushTokens, DeadTokens(messages, tickets));
      pushTokens := PruneTokens(pushTokens, messages, tickets);
    }

    /** `POST /api/register-push-token`: 400 for a missing, empty or non-string token, else the token is added. */
    method RegisterPushToken(token: Option<string>) returns (status: int)
      requires Valid()
      modifies this
      ensures Valid()
      ensures status == if token.None? || token.value == "" then 400 else 200
      ensures pushTokens ==
        if status == 400 || token.value in old(pushTokens) then old(pushTokens) else old(pushTokens) + [token.value]
      ensures Snapshot() == old(Snapshot()) && lastScrapeTime == old(lastScrapeTime) && isFirstScrape == old(isFirstScrape)
    {
      if token.None? || token.value == "" {
        return 400;
      }
      if token.value !in pushTokens {
        pushTokens := pushTokens + [token.value];
      }
      return 200;
    }

    /** `DELETE /api/register-push-token`: a given token is deleted. */
    method DeletePushToken(token: Option<string>)
      requires Valid()
      modifies this
      ensures Valid()
      ensures pushTokens == if token.Some? && token.value != "" then Lists.Without(old(pushTokens), {token.value}) else old(pushTokens)
      ensures token.Some? ==> token.value !in pushTokens
      ensures Snapshot() == old(Snapshot()) && lastScrapeTime == old(lastScrapeTime) && isFirstScrape == old(isFirstScrape)
    {
      if token.Some? && token.value != "" {
        Lists.WithoutMembers(pushTokens, {token.value});
        pushTokens := Lists.Without(pushTokens, {token.value});
      }
    }

    /** `POST /api/vehicles/mark-seen`: every new entry loses its flag and `newVehicleIds` is emptied. */
    method MarkSeen()
      requires Valid()
      modifies this
      ensures Valid()
      ensures Snapshot() == MarkedSeen(old(Snapshot()))
      ensures ListNewVehicles() == []
      ensures pushTokens == old(pushTokens) && lastScrapeTime == old(lastScrapeTime) && isFirstScrape == old(isFirstScrape)
    {
      ghost var st := Snapshot();
      // The entries are values here, so the flags are cleared on a copy of the cache that replaces it.
      var cache := vehicleCache;
      var pending := newVehicleIds;
      while pending != {}
        invariant pending <= st.newIds
        invariant cache.Keys == st.entries.Keys
        invariant forall id :: id in cache ==>
          cache[id] == if id in st.newIds && id !in pending then st.entries[id].(isNew := false) else st.entries[id]
        decreases pending
      {
        var id :| id in pending;
        if id in cache {
          cache := cache[id := cache[id].(isNew := false)];
        }
        pending := pending - {id};
      }
      assert cache == MarkedSeen(st).entries;
      MarkedSeenEffect(st);
      assert isFirstScrape ==> cache == map[];
      vehicleCache := cache;
      newVehicleIds := {};
      assert Snapshot() == MarkedSeen(st);
    }
  }

  // ---------------------------------------------------------------------
  // Polling delay
  // ---------------------------------------------------------------------

  /** `Math.random()` is `rand / RandomScale`. */
  const RandomScale: nat := 0x20_0000_0000_0000

  /** 23:xx, 00:00 to 04:59, and 05:00 to 05:44. */
  predicate IsNight(h: int, m: int) {
    h == 23 || (0 <= h && h < 5) || (h == 5 && m < 45)
  }

  /** Night is the clock interval [23:00, 05:45), counted in minutes of the day. */
  lemma IsNightByMinute(h: int, m: int)
    requires 0 <= h < 24 && 0 <= m < 60
    ensures IsNight(h, m) <==> 60 * h + m >= 23 * 60 || 60 * h + m < 5 * 60 + 45
  {
  }

  lemma ScaledBelow(rand: nat, span: nat)
    requires rand < RandomScale && span > 0
    ensures rand * span / RandomScale < span
  {
    assert rand * span < RandomScale * span;
    assert rand * span / RandomScale <= (RandomScale * span - 1) / RandomScale;
  }

  /**
   * `getNextScrapeDelay` in whole milliseconds: at night 40 minutes plus up to
   * 5 minutes of jitter, by day 2 seconds plus up to 3 seconds.
   */
  function NextScrapeDelay(h: int, m: int, rand: nat): (delay: nat)
    requires rand < RandomScale
    ensures IsNight(h, m) ==> 40 * 60 * 1000 <= delay < 45 * 60 * 1000
    ensures !IsNight(h, m) ==> 2000 <= delay < 5000
  {
    if IsNight(h, m) then
      ScaledBelow(rand, 5 * 60 * 1000);
      40 * 60 * 1000 + rand * (5 * 60 * 1000) / RandomScale
    else
      ScaledBelow(rand, 3000);
      2000 + rand * 3000 / RandomScale
  }
}
