/**
 * One invocation of `lambda_handler` (lambda_function.py:18-130): log in,
 * list the products, and for each product fetch the last 30 minutes of
 * bandwidth telemetry and publish its inbound and outbound series.
 *
 * Every network call is a value here. The responses of the provider are
 * inputs (the login response, the listing, and the telemetry endpoint as a
 * function of product uid and window), and an invocation yields its exit
 * status together with the trace of calls it makes, in order.
 */
module Bridge {
  import opened Wrappers
  import opened Telemetry
  import opened ProductMap
  import opened Publish

  /** The telemetry window: 30 minutes, in milliseconds. */
  const WindowMs: int := 1800000

  /** What the login POST produced: no response at all, or a body with or without a token. */
  datatype LoginResponse = RequestFailed | Responded(token: Option<string>)

  /** How the login step ends: with a token, with a process exit, or with an uncaught exception. */
  datatype LoginGate = Proceed(token: string) | Exit(status: int) | Crash

  /**
   * The login step as written (lambda_function.py:59-64). When the POST
   * itself raises, `r` was never bound, so the handler's `print(r.text)`
   * raises in turn and the invocation dies with an uncaught exception
   * instead of exiting with status 1.
   */
  function LoginGateAsWritten(login: LoginResponse): LoginGate
  {
    match login
    case RequestFailed => Crash
    case Responded(None) => Exit(1)
    case Responded(Some(token)) => Proceed(token)
  }

  /**
   * The login step as intended: any failure to obtain a token ends the
   * invocation with exit status 1.
   */
  function LoginOutcome(login: LoginResponse): (g: LoginGate)
    ensures g.Proceed? <==> login.Responded? && login.token.Some?
    ensures g.Proceed? ==> g.token == login.token.value
    ensures !g.Proceed? ==> g == Exit(1)
  {
    match login
    case Responded(Some(token)) => Proceed(token)
    case _ => Exit(1)
  }

  /** The login step as written and as intended agree on every response except a failed request. */
  lemma LoginFinding(login: LoginResponse)
    ensures LoginGateAsWritten(RequestFailed) == Crash && LoginOutcome(RequestFailed) == Exit(1)
    ensures login != RequestFailed ==> LoginGateAsWritten(login) == LoginOutcome(login)
  {
  }

  /** One outbound call, in the order the invocation makes them. */
  datatype ApiCall<V> =
    | Login
    | ListProducts(token: string)
    | FetchTelemetry(token: string, productUid: string, toMs: int, fromMs: int)
    | SendMetric(metric: string, points: seq<Point<V>>, tags: seq<string>)

  /** The result of one invocation: its exit status and the calls it made. */
  datatype Run<V> = Run(exitStatus: int, calls: seq<ApiCall<V>>)

  /** The telemetry endpoint: the records returned for a product uid and a `(from, to)` window. */
  type TelemetrySource<V> = (string, int, int) -> seq<TelemetryRecord<V>>

  /**
   * What stays fixed across the per-product loop: the login token, the
   * telemetry endpoint, the window `[fromMs, toMs]` and the metric prefix.
   */
  datatype Session<V> = Session(token: string, telemetry: TelemetrySource<V>, fromMs: int, toMs: int, prefix: string)

  /** The window of an invocation at wall-clock time `nowMs` (lambda_function.py:79-81). */
  function SessionAt<V>(token: string, telemetry: TelemetrySource<V>, nowMs: int, prefix: string): (s: Session<V>)
    ensures s.toMs == nowMs && s.toMs - s.fromMs == WindowMs
  {
    Session(token, telemetry, nowMs - WindowMs, nowMs, prefix)
  }

  /** The three calls made for one product (lambda_function.py:86-128). */
  function ProductCalls<V>(s: Session<V>, p: Product): seq<ApiCall<V>>
  {
    var records := s.telemetry(p.uid, s.fromMs, s.toMs);
    var tags := Tags(p.name, p.uid);
    [ FetchTelemetry(s.token, p.uid, s.toMs, s.fromMs),
      SendMetric(InMetric(s.prefix), Series(records, InSubtype), tags),
      SendMetric(OutMetric(s.prefix), Series(records, OutSubtype), tags) ]
  }

  /** The calls made for `products`, one product after the other. */
  function PublishPlan<V>(s: Session<V>, products: seq<Product>): seq<ApiCall<V>>
  {
    if products == [] then []
    else PublishPlan(s, products[..|products| - 1]) + ProductCalls(s, products[|products| - 1])
  }

  /** What one invocation does, given what the provider answers. */
  function Invocation<V>(login: LoginResponse, listing: seq<Product>, telemetry: TelemetrySource<V>,
                         nowMs: int, prefix: string): Run<V>
  {
    var gate := LoginOutcome(login);
    if gate.Proceed? then
      var s := SessionAt(gate.token, telemetry, nowMs, prefix);
      Run(0, [Login, ListProducts(gate.token)] + PublishPlan(s, Entries(ProductMapOf(listing))))
    else
      Run(gate.status, [Login])
  }

  /**
   * The handler. `nowMs` is the wall clock when the window is computed; the
   * window is computed once and shared by all products.
   */
  method Handle<V>(login: LoginResponse, listing: seq<Product>, telemetry: TelemetrySource<V>,
                   nowMs: int, prefix: string) returns (run: Run<V>)
    ensures run == Invocation(login, listing, telemetry, nowMs, prefix)
  {
    var calls: seq<ApiCall<V>> := [Login];
    var gate := LoginOutcome(login);
    if !gate.Proceed? {
      return Run(gate.status, calls);
    }
    var token := gate.token;
    calls := calls + [ListProducts(token)];
    var productMetrics := BuildProductMap(listing);
    var epochCurrent := nowMs;
    var windowStart := epochCurrent - WindowMs;
    ghost var s := Session(token, telemetry, windowStart, epochCurrent, prefix);
    ghost var products := Entries(productMetrics);
    var keys := productMetrics.keys;
    for i := 0 to |keys|
      invariant calls == [Login, ListProducts(token)] + PublishPlan(s, products[..i])
    {
      ghost var before := calls;
      var uid := keys[i];
      var tags := Tags(productMetrics.entries[uid], uid);
      calls := calls + [FetchTelemetry(token, uid, epochCurrent, windowStart)];
      var rawData := telemetry(uid, windowStart, epochCurrent);
      var mbpsIn, mbpsOut := Classify(rawData);
      calls := calls + [SendMetric(InMetric(prefix), mbpsIn, tags)];
      calls := calls + [SendMetric(OutMetric(prefix), mbpsOut, tags)];
      assert products[i] == Product(uid, productMetrics.entries[uid]);
      assert calls == before + ProductCalls(s, products[i]);
      ProductStep(s, products, i, before, calls);
    }
    assert products[..|keys|] == products;
    return Run(0, calls);
  }

  /** One turn of the handler's loop appends the three calls `ProductCalls` gives for product `i`. */
  lemma ProductStep<V>(s: Session<V>, products: seq<Product>, i: nat, before: seq<ApiCall<V>>, after: seq<ApiCall<V>>)
    requires i < |products|
    requires before == [Login, ListProducts(s.token)] + PublishPlan(s, products[..i])
    requires after == before + ProductCalls(s, products[i])
    ensures after == [Login, ListProducts(s.token)] + PublishPlan(s, products[..i + 1])
  {
    assert products[..i + 1][..i] == products[..i];
  }

  /** The calls for product `i` occupy positions `3i`, `3i+1` and `3i+2` of the plan. */
  lemma {:induction false} PlanShape<V>(s: Session<V>, products: seq<Product>)
    ensures |PublishPlan(s, products)| == 3 * |products|
    ensures forall i | 0 <= i < |products| ::
      PublishPlan(s, products)[3 * i..3 * i + 3] == ProductCalls(s, products[i])
  {
    if products != [] {
      var n := |products| - 1;
      var front := PublishPlan(s, products[..n]);
      var plan := PublishPlan(s, products);
      PlanShape(s, products[..n]);
      assert plan == front + ProductCalls(s, products[n]);
      forall i | 0 <= i < |products|
        ensures plan[3 * i..3 * i + 3] == ProductCalls(s, products[i])
      {
        if i < n {
          assert plan[3 * i..3 * i + 3] == front[3 * i..3 * i + 3];
          assert products[..n][i] == products[i];
        }
      }
    }
  }

  /**
   * Without a token the invocation exits with status 1 after the login
   * call and makes no listing, telemetry or publish call; with one it
   * completes with status 0 and lists the products with that token.
   */
  lemma AuthGate<V>(login: LoginResponse, listing: seq<Product>, telemetry: TelemetrySource<V>,
                    nowMs: int, prefix: string)
    ensures var run := Invocation(login, listing, telemetry, nowMs, prefix);
      && (run.exitStatus == 1 <==> !(login.Responded? && login.token.Some?))
      && (run.exitStatus == 1 ==> run.calls == [Login])
      && (run.exitStatus != 1 ==> run.exitStatus == 0 && run.calls[..2] == [Login, ListProducts(login.token.value)])
  {
  }

  /** The three calls of product `i` in the plan, field by field. */
  lemma PlanAt<V>(s: Session<V>, products: seq<Product>, i: nat)
    requires i < |products|
    ensures 3 * i + 3 <= |PublishPlan(s, products)|
    ensures var records := s.telemetry(products[i].uid, s.fromMs, s.toMs);
      var tags := Tags(products[i].name, products[i].uid);
      && PublishPlan(s, products)[3 * i] == FetchTelemetry(s.token, products[i].uid, s.toMs, s.fromMs)
      && PublishPlan(s, products)[3 * i + 1] == SendMetric(InMetric(s.prefix), Series(records, InSubtype), tags)
      && PublishPlan(s, products)[3 * i + 2] == SendMetric(OutMetric(s.prefix), Series(records, OutSubtype), tags)
  {
    var plan := PublishPlan(s, products);
    PlanShape(s, products);
    var calls := plan[3 * i..3 * i + 3];
    assert calls == ProductCalls(s, products[i]);
    assert plan[3 * i] == calls[0] && plan[3 * i + 1] == calls[1] && plan[3 * i + 2] == calls[2];
  }

  /**
   * With a token, the calls after login and listing are, for each product
   * in iteration order: its telemetry fetch over the shared window, then its
   * inbound submission, then its outbound submission, both with the
   * product's tags.
   */
  lemma PublishCalls<V>(login: LoginResponse, listing: seq<Product>, telemetry: TelemetrySource<V>,
                        nowMs: int, prefix: string)
    requires login.Responded? && login.token.Some?
    ensures var run := Invocation(login, listing, telemetry, nowMs, prefix);
      var products := Entries(ProductMapOf(listing));
      && run.calls[..2] == [Login, ListProducts(login.token.value)]
      && |run.calls| == 2 + 3 * |products|
      && forall i | 0 <= i < |products| ::
        var records := telemetry(products[i].uid, nowMs - WindowMs, nowMs);
        var tags := Tags(products[i].name, products[i].uid);
        && run.calls[2 + 3 * i] == FetchTelemetry(login.token.value, products[i].uid, nowMs, nowMs - WindowMs)
        && run.calls[3 + 3 * i] == SendMetric(InMetric(prefix), Series(records, InSubtype), tags)
        && run.calls[4 + 3 * i] == SendMetric(OutMetric(prefix), Series(records, OutSubtype), tags)
  {
    var run := Invocation(login, listing, telemetry, nowMs, prefix);
    var products := Entries(ProductMapOf(listing));
    var s := SessionAt(login.token.value, telemetry, nowMs, prefix);
    var head: seq<ApiCall<V>> := [Login, ListProducts(login.token.value)];
    var plan := PublishPlan(s, products);
    PlanShape(s, products);
    assert run.calls == head + plan;
    forall i | 0 <= i < |products|
      ensures run.calls[2 + 3 * i] == plan[3 * i]
      ensures run.calls[3 + 3 * i] == plan[3 * i + 1]
      ensures run.calls[4 + 3 * i] == plan[3 * i + 2]
    {
    }
    forall i | 0 <= i < |products| {
      PlanAt(s, products, i);
    }
  }

  /** Every fetch of a plan uses the session's token and window. */
  lemma {:induction false} PlanFetches<V>(s: Session<V>, products: seq<Product>)
    ensures forall c | c in PublishPlan(s, products) && c.FetchTelemetry? ::
      c.token == s.token && c.toMs == s.toMs && c.fromMs == s.fromMs
  {
    if products != [] {
      PlanFetches(s, products[..|products| - 1]);
    }
  }

  /**
   * Every telemetry request of an invocation asks for the same window,
   * ending at `nowMs` and exactly 30 minutes long, with the login token.
   */
  lemma SharedWindow<V>(login: LoginResponse, listing: seq<Product>, telemetry: TelemetrySource<V>,
                        nowMs: int, prefix: string)
    ensures var run := Invocation(login, listing, telemetry, nowMs, prefix);
      forall c | c in run.calls && c.FetchTelemetry? ::
        && c.toMs == nowMs && c.toMs - c.fromMs == WindowMs
        && login.Responded? && login.token == Some(c.token)
  {
    if login.Responded? && login.token.Some? {
      var products := Entries(ProductMapOf(listing));
      PlanFetches(SessionAt(login.token.value, telemetry, nowMs, prefix), products);
    }
  }

  /** The number of metric submissions in a trace. */
  function CountSends<V>(calls: seq<ApiCall<V>>): nat
  {
    if calls == [] then 0
    else CountSends(calls[..|calls| - 1]) + (if calls[|calls| - 1].SendMetric? then 1 else 0)
  }

  lemma {:induction false} CountSendsAppend<V>(a: seq<ApiCall<V>>, b: seq<ApiCall<V>>)
    ensures CountSends(a + b) == CountSends(a) + CountSends(b)
  {
    if b == [] {
      assert a + b == a;
    } else {
      var n := |b| - 1;
      assert (a + b)[..|a + b| - 1] == a + b[..n];
      CountSendsAppend(a, b[..n]);
    }
  }

  lemma {:induction false} PlanSends<V>(s: Session<V>, products: seq<Product>)
    ensures CountSends(PublishPlan(s, products)) == 2 * |products|
  {
    if products != [] {
      var n := |products| - 1;
      var calls := ProductCalls(s, products[n]);
      PlanSends(s, products[..n]);
      CountSendsAppend(PublishPlan(s, products[..n]), calls);
      assert calls[..1][..0] == [];
      assert CountSends(calls[..1]) == 0;
      assert calls[..2][..1] == calls[..1];
      assert CountSends(calls[..2]) == 1;
      assert calls[..3][..2] == calls[..2];
      assert calls[..3] == calls;
    }
  }

  /**
   * An invocation with a token makes exactly two metric submissions per
   * distinct product uid of the listing; one without a token makes none.
   */
  lemma PublishCount<V>(login: LoginResponse, listing: seq<Product>, telemetry: TelemetrySource<V>,
                        nowMs: int, prefix: string)
    ensures var run := Invocation(login, listing, telemetry, nowMs, prefix);
      CountSends(run.calls) == if login.Responded? && login.token.Some? then 2 * |set u | u in Uids(listing)| else 0
  {
    var run := Invocation(login, listing, telemetry, nowMs, prefix);
    if login.Responded? && login.token.Some? {
      var token := login.token.value;
      var products := Entries(ProductMapOf(listing));
      var s := SessionAt(token, telemetry, nowMs, prefix);
      var head: seq<ApiCall<V>> := [Login, ListProducts(token)];
      PlanSends(s, products);
      ProductCount(listing);
      CountSendsAppend(head, PublishPlan(s, products));
      assert head[..1][..0] == [];
      assert CountSends(head[..1]) == 0;
      assert head[..2] == head;
    } else {
      assert run.calls == [Login];
      assert run.calls[..0] == [];
    }
  }

  /** The position of the last listing entry with uid `u`. */
  function LastIndex(listing: seq<Product>, u: string): (n: nat)
    requires u in Uids(listing)
    ensures n < |listing| && listing[n].uid == u
    ensures forall j :: n < j < |listing| ==> listing[j].uid != u
  {
    var n := |listing| - 1;
    if listing[n].uid == u then n
    else
      assert Uids(listing) == Uids(listing[..n]) + [listing[n].uid];
      LastIndex(listing[..n], u)
  }

  /**
   * Every product the loop visits is a product of the listing: the uid of
   * some listing entry, with the name of the last entry carrying that uid.
   */
  lemma VisitedProducts(listing: seq<Product>)
    ensures forall p | p in Entries(ProductMapOf(listing)) ::
      exists j | 0 <= j < |listing| ::
        && p == listing[j]
        && forall j' | j < j' < |listing| :: listing[j'].uid != listing[j].uid
  {
    var m := ProductMapOf(listing);
    ProductMapKeys(listing);
    forall p | p in Entries(m)
      ensures exists j | 0 <= j < |listing| ::
        && p == listing[j]
        && forall j' | j < j' < |listing| :: listing[j'].uid != listing[j].uid
    {
      var j := LastIndex(listing, p.uid);
      ProductMapName(listing, j);
      assert p == listing[j];
    }
  }

  /** Every submission of a plan carries the tags of one of its products. */
  lemma {:induction false} PlanSendTags<V>(s: Session<V>, products: seq<Product>)
    ensures forall c | c in PublishPlan(s, products) && c.SendMetric? ::
      exists p | p in products :: c.tags == Tags(p.name, p.uid)
  {
    if products != [] {
      var n := |products| - 1;
      PlanSendTags(s, products[..n]);
      forall c | c in PublishPlan(s, products) && c.SendMetric?
        ensures exists p | p in products :: c.tags == Tags(p.name, p.uid)
      {
        if c in PublishPlan(s, products[..n]) {
          var p :| p in products[..n] && c.tags == Tags(p.name, p.uid);
          assert p in products;
        } else {
          assert products[n] in products;
        }
      }
    }
  }

  /**
   * The tags of every submission name a product of the listing: the uid of
   * some listing entry, with the name of the last entry carrying that uid.
   */
  lemma SubmissionTags<V>(login: LoginResponse, listing: seq<Product>, telemetry: TelemetrySource<V>,
                          nowMs: int, prefix: string)
    ensures var run := Invocation(login, listing, telemetry, nowMs, prefix);
      forall c | c in run.calls && c.SendMetric? ::
        exists j | 0 <= j < |listing| ::
          && c.tags == Tags(listing[j].name, listing[j].uid)
          && forall j' | j < j' < |listing| :: listing[j'].uid != listing[j].uid
  {
    if login.Responded? && login.token.Some? {
      var run := Invocation(login, listing, telemetry, nowMs, prefix);
      var products := Entries(ProductMapOf(listing));
      var s := SessionAt(login.token.value, telemetry, nowMs, prefix);
      PlanSendTags(s, products);
      VisitedProducts(listing);
      forall c | c in run.calls && c.SendMetric?
        ensures exists j | 0 <= j < |listing| ::
          && c.tags == Tags(listing[j].name, listing[j].uid)
          && forall j' | j < j' < |listing| :: listing[j'].uid != listing[j].uid
      {
        assert c in PublishPlan(s, products);
        var p :| p in products && c.tags == Tags(p.name, p.uid);
        var j :| 0 <= j < |listing| && p == listing[j]
          && forall j' | j < j' < |listing| :: listing[j'].uid != listing[j].uid;
      }
    }
  }

  /**
   * One product whose telemetry holds an inbound, an outbound and an
   * unknown record: the unknown record is dropped, the timestamps become
   * seconds, and the two submissions go out under the default prefix.
   */
  lemma Example(nowMs: int)
    ensures var telemetry: TelemetrySource<int> := (uid, fromMs, toMs) =>
        [ TelemetryRecord("In", [RawSample(1000, 5)]),
          TelemetryRecord("Out", [RawSample(2000, 7)]),
          TelemetryRecord("Foo", [RawSample(3000, 9)]) ];
      var tags := ["source:megaport_datadog.py", "product_name:A", "product_uid:p1"];
      Invocation(Responded(Some("tok")), [Product("p1", "A")], telemetry, nowMs, "megaport")
        == Run(0, [ Login, ListProducts("tok"), FetchTelemetry("tok", "p1", nowMs, nowMs - 1800000),
                    SendMetric("megaport.bandwidth.mbps_in", [Point(1, 5)], tags),
                    SendMetric("megaport.bandwidth.mbps_out", [Point(2, 7)], tags) ])
  {
    var telemetry: TelemetrySource<int> := (uid, fromMs, toMs) =>
        [ TelemetryRecord("In", [RawSample(1000, 5)]),
          TelemetryRecord("Out", [RawSample(2000, 7)]),
          TelemetryRecord("Foo", [RawSample(3000, 9)]) ];
    var listing := [Product("p1", "A")];
    assert listing[..0] == [];
    assert Entries(ProductMapOf(listing)) == listing;
    ClassifyExample();
    PublishExample();
    var s := SessionAt("tok", telemetry, nowMs, "megaport");
    assert PublishPlan(s, listing) == ProductCalls(s, listing[0]);
  }
}
