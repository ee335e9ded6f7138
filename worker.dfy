/** One run of the campaign worker's `processNext`: pick the first ready row,
    load its contact's batch, stop if the campaign is missing or paused, and
    otherwise send every batch row in order, settling each as sent or failed
    and pausing between items. The dispatch table is an array updated in
    place; the store's other tables are maps; JSON.parse and the transport
    are given as functions. */
module Worker {
  import opened Js
  import opened Text
  import opened Payloads
  import opened Selection

  /** The campaign fields the worker reads; a null delay is None. */
  datatype Campaign = Campaign(delay: Option<int>, contactDelay: Option<int>, status: string)

  /** The contact fields the worker reads; each may be null. */
  datatype Profile = Profile(name: Option<string>, email: Option<string>, empresa: Option<string>)

  /** Milliseconds before the next run when nothing is ready. */
  const IdleRetry := 5000
  /** Milliseconds before the next run when the batch query finds no row. */
  const EmptyBatchRetry := 2000
  /** Milliseconds before the next run when the campaign is missing or paused. */
  const PausedRetry := 10000
  /** The item delay used when the campaign's delay is null or 0. */
  const DefaultItemDelay := 30000

  /** The profile whose phone is the row's contact, or null. */
  function ProfileOf(profiles: map<string, Profile>, phone: string): Option<Profile> {
    if phone in profiles then Some(profiles[phone]) else None
  }

  /** `{ nome: contactData?.name, email: contactData?.email, empresa: contactData?.empresa }`. */
  function TemplateVars(contact: Option<Profile>): (vars: map<string, Option<string>>)
    ensures vars.Keys == {"nome", "email", "empresa"}
    ensures contact.None? ==> forall key :: Lookup(vars, key) == ""
    ensures contact.Some? ==> vars["nome"] == contact.value.name && vars["email"] == contact.value.email
                              && vars["empresa"] == contact.value.empresa
  {
    match contact
    case None => map["nome" := None, "email" := None, "empresa" := None]
    case Some(p) => map["nome" := p.name, "email" := p.email, "empresa" := p.empresa]
  }

  // ---------------------------------------------------------------------------
  // Pacing
  // ---------------------------------------------------------------------------

  /** `campaign.delay || 30000`. */
  function ItemDelay(c: Campaign): (d: int)
    ensures d != 0
    ensures c.delay.None? || c.delay == Some(0) ==> d == DefaultItemDelay
    ensures c.delay.Some? && c.delay.value != 0 ==> d == c.delay.value
  {
    if c.delay.Some? && c.delay.value != 0 then c.delay.value else DefaultItemDelay
  }

  /** `campaign.contactDelay || 0`. */
  function ContactDelay(c: Campaign): (d: int)
    ensures d > 0 <==> c.contactDelay.Some? && c.contactDelay.value > 0
    ensures d > 0 ==> d == c.contactDelay.value
  {
    if c.contactDelay.Some? then c.contactDelay.value else 0
  }

  function Repeat(x: int, n: nat): (r: seq<int>)
    ensures |r| == n
    ensures forall i :: 0 <= i < n ==> r[i] == x
  {
    if n == 0 then [] else Repeat(x, n - 1) + [x]
  }

  /** The waits of a run that sent n items: the item delay after each of them,
      the last included, then the contact delay when it is positive. */
  function Pacing(c: Campaign, n: nat): (waits: seq<int>)
    ensures |waits| == if ContactDelay(c) > 0 then n + 1 else n
    ensures forall k :: 0 <= k < n ==> waits[k] == ItemDelay(c)
    ensures ContactDelay(c) > 0 ==> waits[n] == ContactDelay(c)
    ensures forall k :: 0 <= k < |waits| ==> waits[k] != 0
  {
    Repeat(ItemDelay(c), n) + (if ContactDelay(c) > 0 then [ContactDelay(c)] else [])
  }

  // ---------------------------------------------------------------------------
  // One item
  // ---------------------------------------------------------------------------

  /** What `await axios.post(...)` gave: a response body, or an error thrown with its message. */
  datatype Reply = Response(data: JsValue) | Thrown(message: string)

  /** `v?.key` on a response body; only objects have the keys read here. */
  function Prop(v: JsValue, key: string): JsValue {
    if v.Obj? then Get(v.fields, key) else Undefined
  }

  /** `res?.data?.status` is truthy. */
  predicate Delivered(r: Reply) {
    r.Response? && Truthy(Prop(r.data, "status"))
  }

  const SendFailed := "Falha no envio"

  /** `String(err.message || err)`: an error with an empty message prints as its name. */
  function ErrorText(message: string, name: string): (e: string)
    requires name != ""
    ensures e != ""
    ensures message != "" ==> e == message
    ensures message == "" ==> e == name
  {
    if message != "" then message else name
  }

  /** The error recorded for a reply that did not deliver. For a response,
      `new Error(message || 'Falha no envio')` converts the message to a
      string, and a message that cannot be converted throws a TypeError there
      instead, which the same `catch` records. */
  function FailureText(r: Reply): (e: string)
    requires !Delivered(r)
    ensures e != ""
    ensures r.Response? && !Truthy(Prop(r.data, "message")) ==> e == SendFailed
    ensures r.Response? && Prop(r.data, "message").Str? && Prop(r.data, "message").s != "" ==> e == Prop(r.data, "message").s
    ensures r.Response? && !Prints(Prop(r.data, "message")) ==> e == NoPrimitive
    ensures r.Response? && Prop(r.data, "message").Obj? && "toString" !in Prop(r.data, "message").fields ==>
              e == "[object Object]"
    ensures r.Response? && Prop(r.data, "message").Num? && Prop(r.data, "message").n != 0 ==>
              e == IntToString(Prop(r.data, "message").n)
    ensures r.Response? && Prop(r.data, "message") == Bool(true) ==> e == "true"
    ensures r.Thrown? && r.message != "" ==> e == r.message
    ensures r.Thrown? && r.message == "" ==> e == "AxiosError"
  {
    match r
    case Response(data) =>
      (match ToString(Or(Prop(data, "message"), Str(SendFailed)))
       case Ok(message) => ErrorText(message, "Error")
       case Err(thrown) => ErrorText(thrown, "TypeError"))
    case Thrown(message) => ErrorText(message, "AxiosError")
  }

  /** The request posted for an item, if one was built, and the error it settled with, if any. */
  datatype Delivery = Delivery(request: Option<Request>, error: Option<string>)

  /** The body of the loop for the item at position k of the batch: the request
      posted, if one was built, and the error the row ends with, if any.
      `send(k, q)` is the transport's reply to request q posted for that item.
      After a delivered reply the row is marked sent and the success log prints
      `${payload.type}`; when that conversion throws, the `catch` marks the
      same row failed, so the row ends failed with the TypeError's message. */
  function Deliver(d: Dispatch, k: nat, vars: map<string, Option<string>>,
                   parse: string -> Option<JsValue>, send: (nat, Request) -> Reply): Delivery
  {
    var payload := ParsePayload(d.message, parse);
    match Route(payload, d.sessionName, DigitsOnly(d.contact), vars)
    case Err(e) => Delivery(None, Some(e))
    case Ok(q) =>
      var reply := send(k, q);
      if !Delivered(reply) then Delivery(Some(q), Some(FailureText(reply)))
      else
        match ToString(payload.Field("type"))
        case Ok(_) => Delivery(Some(q), None)
        case Err(thrown) => Delivery(Some(q), Some(thrown))
  }

  /** The body of the loop for one item: build the request, post it, and judge the reply. */
  method SendItem(d: Dispatch, k: nat, vars: map<string, Option<string>>,
                  parse: string -> Option<JsValue>, send: (nat, Request) -> Reply)
    returns (request: Option<Request>, error: Option<string>)
    ensures var payload := ParsePayload(d.message, parse);
      var route := Route(payload, d.sessionName, DigitsOnly(d.contact), vars);
      (request.Some? <==> route.Ok?) &&
      (request.Some? ==> request.value == route.value) &&
      (error.None? <==> route.Ok? && Delivered(send(k, route.value)) && Prints(payload.Field("type"))) &&
      (error.Some? ==> error.value != "")
    ensures Delivery(request, error) == Deliver(d, k, vars, parse, send)
  {
    var payload := ParsePayload(d.message, parse);
    var contact := DigitsOnly(d.contact);
    match Route(payload, d.sessionName, contact, vars) {
      case Err(e) =>
        request, error := None, Some(e);
      case Ok(q) =>
        request := Some(q);
        var res := send(k, q);
        if !Delivered(res) {
          error := Some(FailureText(res));
        } else {
          match ToString(payload.Field("type")) {
            case Ok(_) =>
              error := None;
            case Err(thrown) =>
              error := Some(thrown);
          }
        }
    }
  }

  /** An item is settled by its own request and reply, a failure always carries
      a message, and a request goes to the row's session and contact digits. */
  lemma DeliverOutcome(d: Dispatch, k: nat, vars: map<string, Option<string>>,
                       parse: string -> Option<JsValue>, send: (nat, Request) -> Reply)
    ensures var r := Deliver(d, k, vars, parse, send);
      var route := Route(ParsePayload(d.message, parse), d.sessionName, DigitsOnly(d.contact), vars);
      (r.request.Some? <==> route.Ok?) &&
      (r.request.Some? ==> r.request.value == route.value) &&
      (r.request.Some? ==> r.request.value.session == d.sessionName && r.request.value.telnumber == DigitsOnly(d.contact)) &&
      (r.error.None? <==> route.Ok? && Delivered(send(k, route.value)) && Prints(ParsePayload(d.message, parse).Field("type"))) &&
      (r.error.Some? ==> r.error.value != "")
  {
  }

  /** A stored message whose type is an object with its own `toString` key,
      such as `{"type":{"toString":0,"valueOf":0},"text":"hi"}`, is posted as
      text; when the transport delivers it, the success log's `${payload.type}`
      throws and the row ends failed with the TypeError's message. */
  lemma UnprintableTypeFailsAfterDelivery(d: Dispatch, k: nat, vars: map<string, Option<string>>,
                                          parse: string -> Option<JsValue>, send: (nat, Request) -> Reply)
    requires d.message.Some?
    requires parse(d.message.value) ==
               Some(Obj(map["type" := Obj(map["toString" := Num(0), "valueOf" := Num(0)]), "text" := Str("hi")]))
    requires forall q :: Delivered(send(k, q))
    ensures Deliver(d, k, vars, parse, send).request.Some?
    ensures Deliver(d, k, vars, parse, send).request.value.SendMessage?
    ensures Deliver(d, k, vars, parse, send).error == Some(NoPrimitive)
  {
    var tag := Obj(map["toString" := Num(0), "valueOf" := Num(0)]);
    var fields := map["type" := tag, "text" := Str("hi")];
    assert Get(fields, "type") == tag && Get(fields, "text") == Str("hi");
    assert "toString" in tag.fields;
    var payload := ParsePayload(d.message, parse);
    assert payload.fields == fields;
    assert KindOf(payload) == TextMsg;
  }

  /** The store update for an item: `sent` leaves the error column as it was;
      `failed` records the error. No other column changes. */
  function Settle(d: Dispatch, error: Option<string>): (r: Dispatch)
    ensures r.(status := d.status, error := d.error) == d
    ensures r.status == Sent <==> error.None?
    ensures r.status == Failed <==> error.Some?
    ensures error.Some? ==> r.error == error
    ensures error.None? ==> r.error == d.error
  {
    match error
    case None => d.(status := Sent)
    case Some(_) => d.(status := Failed, error := error)
  }

  /** What each of the first n items of the batch gave, in batch order. */
  function Deliveries(rows: seq<Dispatch>, batch: seq<nat>, n: nat, vars: map<string, Option<string>>,
                      parse: string -> Option<JsValue>, send: (nat, Request) -> Reply): (ds: seq<Delivery>)
    requires n <= |batch| && ValidIds(rows, batch)
    ensures |ds| == n
    decreases n
  {
    if n == 0 then []
    else Deliveries(rows, batch, n - 1, vars, parse, send) + [Deliver(rows[batch[n - 1]], n - 1, vars, parse, send)]
  }

  /** The item at position k is delivered on its own, from its row and `send(k, ·)` alone. */
  lemma {:induction false} DeliveriesAt(rows: seq<Dispatch>, batch: seq<nat>, n: nat, vars: map<string, Option<string>>,
                                        parse: string -> Option<JsValue>, send: (nat, Request) -> Reply, k: nat)
    requires n <= |batch| && ValidIds(rows, batch) && k < n
    ensures Deliveries(rows, batch, n, vars, parse, send)[k] == Deliver(rows[batch[k]], k, vars, parse, send)
    decreases n
  {
    if k < n - 1 {
      DeliveriesAt(rows, batch, n - 1, vars, parse, send, k);
    }
  }

  /** The table after the first n items of the batch are settled by their deliveries. */
  function Settled(rows: seq<Dispatch>, batch: seq<nat>, ds: seq<Delivery>, n: nat): (r: seq<Dispatch>)
    requires n <= |batch| && n <= |ds| && ValidIds(rows, batch)
    ensures |r| == |rows|
    decreases n
  {
    if n == 0 then rows
    else Settled(rows, batch, ds, n - 1)[batch[n - 1] := Settle(rows[batch[n - 1]], ds[n - 1].error)]
  }

  /** The requests posted for the first n items, in order. */
  function RequestsOf(ds: seq<Delivery>, n: nat): (r: seq<Request>)
    requires n <= |ds|
    ensures |r| <= n
    decreases n
  {
    if n == 0 then []
    else RequestsOf(ds, n - 1) + (if ds[n - 1].request.Some? then [ds[n - 1].request.value] else [])
  }

  predicate Distinct(batch: seq<nat>) {
    forall p, q :: 0 <= p < q < |batch| ==> batch[p] != batch[q]
  }

  /** A row outside the settled items is untouched. */
  lemma {:induction false} SettledFrame(rows: seq<Dispatch>, batch: seq<nat>, ds: seq<Delivery>, n: nat, i: nat)
    requires n <= |batch| && n <= |ds| && ValidIds(rows, batch)
    requires i < |rows| && forall k :: 0 <= k < n ==> batch[k] != i
    ensures Settled(rows, batch, ds, n)[i] == rows[i]
    decreases n
  {
    if n > 0 {
      SettledFrame(rows, batch, ds, n - 1, i);
    }
  }

  /** The item at position k ends as its own delivery says, whatever the others gave. */
  lemma {:induction false} SettledAt(rows: seq<Dispatch>, batch: seq<nat>, ds: seq<Delivery>, n: nat, k: nat)
    requires n <= |batch| && n <= |ds| && ValidIds(rows, batch) && Distinct(batch)
    requires k < n
    ensures Settled(rows, batch, ds, n)[batch[k]] == Settle(rows[batch[k]], ds[k].error)
    decreases n
  {
    if k < n - 1 {
      SettledAt(rows, batch, ds, n - 1, k);
    }
  }

  /** Requests built for one session and number are the only ones posted. */
  lemma {:induction false} RequestsAddress(ds: seq<Delivery>, n: nat, session: string, telnumber: string)
    requires n <= |ds|
    requires forall k :: 0 <= k < n && ds[k].request.Some? ==>
               ds[k].request.value.session == session && ds[k].request.value.telnumber == telnumber
    ensures forall q :: q in RequestsOf(ds, n) ==> q.session == session && q.telnumber == telnumber
    decreases n
  {
    if n > 0 {
      RequestsAddress(ds, n - 1, session, telnumber);
    }
  }

  // ---------------------------------------------------------------------------
  // One run of processNext
  // ---------------------------------------------------------------------------

  /** How a run ended. */
  datatype Step =
    | Idle
    | EmptyBatch(head: nat)
    | Paused(head: nat)
    | Dispatched(head: nat, batch: seq<nat>)

  /** A run's effect: how it ended, the table afterwards, the waits it made
      before the next run starts, and the requests it posted. */
  datatype Outcome = Outcome(step: Step, rows: seq<Dispatch>, waits: seq<int>, requests: seq<Request>)

  /** `!campaign || campaign.status === 'paused'`: the row's campaign is missing or paused. */
  predicate Stopped(campaigns: map<int, Campaign>, id: int) {
    id !in campaigns || campaigns[id].status == "paused"
  }

  /** The effect of one run on table `rows` at time `now`. */
  function NextState(rows: seq<Dispatch>, campaigns: map<int, Campaign>, profiles: map<string, Profile>, now: int,
                     parse: string -> Option<JsValue>, send: (nat, Request) -> Reply): Outcome
  {
    match FirstReady(rows, now)
    case None => Outcome(Idle, rows, [IdleRetry], [])
    case Some(h) =>
      var head := rows[h];
      var vars := TemplateVars(ProfileOf(profiles, head.contact));
      var batch := Batch(rows, head, now);
      if |batch| == 0 then Outcome(EmptyBatch(h), rows, [EmptyBatchRetry], [])
      else if Stopped(campaigns, head.campaignId) then Outcome(Paused(h), rows, [PausedRetry], [])
      else
        var c := campaigns[head.campaignId];
        var ds := Deliveries(rows, batch, |batch|, vars, parse, send);
        Outcome(Dispatched(h, batch), Settled(rows, batch, ds, |batch|), Pacing(c, |batch|), RequestsOf(ds, |batch|))
  }

  /** `prisma.campaignDispatch.update`: row id is replaced and no other row changes. */
  method StoreUpdate(table: array<Dispatch>, id: nat, d: Dispatch)
    requires id < table.Length
    modifies table
    ensures table[..] == old(table[..])[id := d]
  {
    table[id] := d;
  }

  /** The `for` loop over the batch: each item is sent, its row settled in the
      table, and the item delay waited, in batch order. */
  method SendBatch(table: array<Dispatch>, batch: seq<nat>, delayMs: int, vars: map<string, Option<string>>,
                   parse: string -> Option<JsValue>, send: (nat, Request) -> Reply)
    returns (waits: seq<int>, requests: seq<Request>)
    requires ValidIds(table[..], batch)
    modifies table
    ensures var ds := Deliveries(old(table[..]), batch, |batch|, vars, parse, send);
      table[..] == Settled(old(table[..]), batch, ds, |batch|) &&
      requests == RequestsOf(ds, |batch|) && waits == Repeat(delayMs, |batch|)
  {
    var rows := table[..];
    ghost var ds := Deliveries(rows, batch, |batch|, vars, parse, send);
    waits, requests := [], [];
    for k := 0 to |batch|
      invariant table.Length == |rows|
      invariant table[..] == Settled(rows, batch, ds, k)
      invariant requests == RequestsOf(ds, k)
      invariant waits == Repeat(delayMs, k)
    {
      var request, error := SendItem(rows[batch[k]], k, vars, parse, send);
      DeliveriesAt(rows, batch, |batch|, vars, parse, send, k);
      requests := requests + (if request.Some? then [request.value] else []);
      StoreUpdate(table, batch[k], Settle(rows[batch[k]], error));
      waits := waits + [delayMs];
    }
  }

  /** `processNext` on the dispatch table. */
  method ProcessNext(table: array<Dispatch>, campaigns: map<int, Campaign>, profiles: map<string, Profile>, now: int,
                     parse: string -> Option<JsValue>, send: (nat, Request) -> Reply)
    returns (step: Step, waits: seq<int>, requests: seq<Request>)
    modifies table
    ensures Outcome(step, table[..], waits, requests) == NextState(old(table[..]), campaigns, profiles, now, parse, send)
  {
    var rows := table[..];
    var first := FirstReady(rows, now);
    if first.None? {
      return Idle, [IdleRetry], [];
    }
    var h := first.value;
    var head := rows[h];
    var vars := TemplateVars(ProfileOf(profiles, head.contact));
    var batch := Batch(rows, head, now);
    if |batch| == 0 {
      return EmptyBatch(h), [EmptyBatchRetry], [];
    }
    if Stopped(campaigns, head.campaignId) {
      return Paused(h), [PausedRetry], [];
    }
    var campaign := campaigns[head.campaignId];
    var delayMs := ItemDelay(campaign);
    var contactDelayMs := ContactDelay(campaign);
    waits, requests := SendBatch(table, batch, delayMs, vars, parse, send);
    waits := waits + (if contactDelayMs > 0 then [contactDelayMs] else []);
    step := Dispatched(h, batch);
  }

  // ---------------------------------------------------------------------------
  // Properties of a run
  // ---------------------------------------------------------------------------

  /** A run is idle exactly when no row is ready; it then changes nothing and
      waits 5 s. Otherwise it starts from the row findFirst picks, which is
      always in its own batch, so the empty-batch branch is never taken. */
  lemma NextStateSelection(rows: seq<Dispatch>, campaigns: map<int, Campaign>, profiles: map<string, Profile>, now: int,
                           parse: string -> Option<JsValue>, send: (nat, Request) -> Reply)
    ensures var o := NextState(rows, campaigns, profiles, now, parse, send);
      (o.step.Idle? <==> forall j :: 0 <= j < |rows| ==> !Ready(rows[j], now)) &&
      (o.step.Idle? ==> o.rows == rows && o.waits == [IdleRetry] && o.requests == []) &&
      !o.step.EmptyBatch? &&
      (o.step.Paused? || o.step.Dispatched? ==> IsFirstReady(rows, now, o.step.head))
  {
    var first := FirstReady(rows, now);
    FirstReadyCharacterized(rows, now, 0);
    if first.Some? {
      var h := first.value;
      FirstReadyCharacterized(rows, now, h);
      assert h in Batch(rows, rows[h], now);
    }
  }

  /** A run that found a ready row stops without changing any row exactly when
      that row's campaign is missing or paused, and then waits 10 s. */
  lemma NextStatePaused(rows: seq<Dispatch>, campaigns: map<int, Campaign>, profiles: map<string, Profile>, now: int,
                        parse: string -> Option<JsValue>, send: (nat, Request) -> Reply, h: nat)
    requires IsFirstReady(rows, now, h)
    ensures var o := NextState(rows, campaigns, profiles, now, parse, send);
      (o.step.Paused? <==> Stopped(campaigns, rows[h].campaignId)) &&
      (o.step.Paused? ==> o.rows == rows && o.waits == [PausedRetry] && o.requests == [])
  {
    FirstReadyCharacterized(rows, now, h);
    assert h in Batch(rows, rows[h], now);
  }

  /** The batch is exactly the ready rows of the head's campaign, contact and
      session, in ascending messageOrder, each once, the head among them. */
  lemma NextStateBatch(rows: seq<Dispatch>, campaigns: map<int, Campaign>, profiles: map<string, Profile>, now: int,
                       parse: string -> Option<JsValue>, send: (nat, Request) -> Reply)
    requires NextState(rows, campaigns, profiles, now, parse, send).step.Dispatched?
    ensures var st := NextState(rows, campaigns, profiles, now, parse, send).step;
      var batch := st.batch;
      st.head < |rows| && st.head in batch && ValidIds(rows, batch) && Distinct(batch) &&
      (forall i: int :: i in batch <==> 0 <= i < |rows| && InBatch(rows[i], rows[st.head], now)) &&
      (forall p, q :: 0 <= p < q < |batch| ==> rows[batch[p]].messageOrder <= rows[batch[q]].messageOrder)
  {
    var h := FirstReady(rows, now).value;
    assert InBatch(rows[h], rows[h], now);
  }

  /** A batch row after the run: sent, or failed with a non-empty error, and
      no column other than status and error changed; a sent row keeps its error. */
  predicate SettledRow(before: Dispatch, after: Dispatch) {
    (after.status == Sent || (after.status == Failed && after.error.Some? && after.error.value != "")) &&
    after.(status := before.status, error := before.error) == before &&
    (after.status == Sent ==> after.error == before.error)
  }

  /** Settling a whole batch of distinct rows settles each of them and touches no other row. */
  lemma SettledRows(rows: seq<Dispatch>, batch: seq<nat>, vars: map<string, Option<string>>,
                    parse: string -> Option<JsValue>, send: (nat, Request) -> Reply)
    requires ValidIds(rows, batch) && Distinct(batch)
    ensures var after := Settled(rows, batch, Deliveries(rows, batch, |batch|, vars, parse, send), |batch|);
      forall i :: 0 <= i < |rows| ==> if i in batch then SettledRow(rows[i], after[i]) else after[i] == rows[i]
  {
    var ds := Deliveries(rows, batch, |batch|, vars, parse, send);
    var after := Settled(rows, batch, ds, |batch|);
    forall i | 0 <= i < |rows|
      ensures if i in batch then SettledRow(rows[i], after[i]) else after[i] == rows[i]
    {
      if i in batch {
        var k :| 0 <= k < |batch| && batch[k] == i;
        SettledAt(rows, batch, ds, |batch|, k);
        DeliveriesAt(rows, batch, |batch|, vars, parse, send, k);
        DeliverOutcome(rows[i], k, vars, parse, send);
      } else {
        SettledFrame(rows, batch, ds, |batch|, i);
      }
    }
  }

  /** Every batch row ends sent or failed, a failed row with a non-empty error,
      with no other column changed; every other row is unchanged. */
  lemma NextStateSettles(rows: seq<Dispatch>, campaigns: map<int, Campaign>, profiles: map<string, Profile>, now: int,
                         parse: string -> Option<JsValue>, send: (nat, Request) -> Reply)
    requires NextState(rows, campaigns, profiles, now, parse, send).step.Dispatched?
    ensures var o := NextState(rows, campaigns, profiles, now, parse, send);
      |o.rows| == |rows| &&
      forall i :: 0 <= i < |rows| ==> if i in o.step.batch then SettledRow(rows[i], o.rows[i]) else o.rows[i] == rows[i]
  {
    var h := FirstReady(rows, now).value;
    var batch := Batch(rows, rows[h], now);
    SettledRows(rows, batch, TemplateVars(ProfileOf(profiles, rows[h].contact)), parse, send);
  }

  /** Each row of the batch, at position k, ends sent in `after` exactly when
      the request built for it was posted, the transport's reply to it,
      `send(k, ·)`, delivered, and the payload's type printed in the success log. */
  predicate ItemsSettle(rows: seq<Dispatch>, after: seq<Dispatch>, batch: seq<nat>, session: string, contact: string,
                        vars: map<string, Option<string>>, parse: string -> Option<JsValue>, send: (nat, Request) -> Reply)
  {
    forall k :: 0 <= k < |batch| ==>
      batch[k] < |rows| && batch[k] < |after| &&
      var payload := ParsePayload(rows[batch[k]].message, parse);
      var route := Route(payload, session, DigitsOnly(contact), vars);
      (after[batch[k]].status == Sent <==> route.Ok? && Delivered(send(k, route.value)) && Prints(payload.Field("type")))
  }

  /** Every request posted goes to the given session and number. */
  predicate RequestsAddressed(requests: seq<Request>, session: string, telnumber: string) {
    forall q :: q in requests ==> q.session == session && q.telnumber == telnumber
  }

  /** For a batch of distinct rows of one session and contact, the item at
      position k ends sent exactly when its request was built, its reply
      delivered and its type printed, and every request posted addresses that
      session and contact. */
  lemma BatchItems(rows: seq<Dispatch>, batch: seq<nat>, session: string, contact: string,
                   vars: map<string, Option<string>>, parse: string -> Option<JsValue>, send: (nat, Request) -> Reply)
    requires ValidIds(rows, batch) && Distinct(batch)
    requires forall k :: 0 <= k < |batch| ==> rows[batch[k]].sessionName == session && rows[batch[k]].contact == contact
    ensures var ds := Deliveries(rows, batch, |batch|, vars, parse, send);
      ItemsSettle(rows, Settled(rows, batch, ds, |batch|), batch, session, contact, vars, parse, send) &&
      RequestsAddressed(RequestsOf(ds, |batch|), session, DigitsOnly(contact))
  {
    var ds := Deliveries(rows, batch, |batch|, vars, parse, send);
    var after := Settled(rows, batch, ds, |batch|);
    forall k | 0 <= k < |batch|
      ensures var payload := ParsePayload(rows[batch[k]].message, parse);
        var route := Route(payload, session, DigitsOnly(contact), vars);
        (after[batch[k]].status == Sent <==> route.Ok? && Delivered(send(k, route.value)) && Prints(payload.Field("type")))
      ensures ds[k].request.Some? ==> ds[k].request.value.session == session &&
                                      ds[k].request.value.telnumber == DigitsOnly(contact)
    {
      SettledAt(rows, batch, ds, |batch|, k);
      DeliveriesAt(rows, batch, |batch|, vars, parse, send, k);
      DeliverOutcome(rows[batch[k]], k, vars, parse, send);
    }
    RequestsAddress(ds, |batch|, session, DigitsOnly(contact));
  }

  /** A failure does not stop later items: the row at position k of the batch
      ends sent exactly when the request built for it was posted, the
      transport's reply to that request delivered and the success log could
      print its type, and every request addresses the head's session and contact. */
  lemma NextStateItems(rows: seq<Dispatch>, campaigns: map<int, Campaign>, profiles: map<string, Profile>, now: int,
                       parse: string -> Option<JsValue>, send: (nat, Request) -> Reply)
    requires NextState(rows, campaigns, profiles, now, parse, send).step.Dispatched?
    ensures var o := NextState(rows, campaigns, profiles, now, parse, send);
      var head := rows[o.step.head];
      var vars := TemplateVars(ProfileOf(profiles, head.contact));
      ItemsSettle(rows, o.rows, o.step.batch, head.sessionName, head.contact, vars, parse, send) &&
      RequestsAddressed(o.requests, head.sessionName, DigitsOnly(head.contact))
  {
    var h := FirstReady(rows, now).value;
    var head := rows[h];
    var batch := Batch(rows, head, now);
    forall k | 0 <= k < |batch|
      ensures rows[batch[k]].sessionName == head.sessionName && rows[batch[k]].contact == head.contact
    {
      assert batch[k] in batch;
    }
    BatchItems(rows, batch, head.sessionName, head.contact, TemplateVars(ProfileOf(profiles, head.contact)), parse, send);
  }

  /** A dispatching run waits the item delay after every item, the last
      included, where a null or 0 delay means 30 s, and then the contact delay
      only when it is positive. */
  lemma NextStatePacing(rows: seq<Dispatch>, campaigns: map<int, Campaign>, profiles: map<string, Profile>, now: int,
                        parse: string -> Option<JsValue>, send: (nat, Request) -> Reply)
    requires NextState(rows, campaigns, profiles, now, parse, send).step.Dispatched?
    ensures var o := NextState(rows, campaigns, profiles, now, parse, send);
      var n := |o.step.batch|;
      var c := campaigns[rows[o.step.head].campaignId];
      |o.waits| == (if ContactDelay(c) > 0 then n + 1 else n) &&
      (forall k :: 0 <= k < n ==> o.waits[k] != 0 && o.waits[k] == ItemDelay(c)) &&
      (forall k :: 0 <= k < n && (c.delay.None? || c.delay == Some(0)) ==> o.waits[k] == DefaultItemDelay) &&
      (ContactDelay(c) > 0 ==> o.waits[n] == ContactDelay(c))
  {
  }
}
