/** The delivery services of prac9/prac9p2/src/Main.java: the internal
    service with its map of order statuses, the adapters over the three
    external logistics services, and the factory that picks one by name. */
module Delivery {
  import opened Wrappers
  import Strings

  /** An `IInternalDeliveryService`. Only the internal service has state;
      each adapter wraps an external service that has none. */
  datatype Service =
    | Internal(statuses: map<string, string>)
    | AdapterA
    | AdapterB
    | AdapterC

  /** `NumberFormatException` from adapter A's `Integer.parseInt`, and the
      factory's `IllegalArgumentException`. */
  datatype DeliveryError =
    | BadNumber(cause: Strings.NumberFormatError)
    | IllegalArgument(message: string)

  const InTransit := "Заказ в пути"
  const NotFound := "Заказ не найден"

  /** `InternalDeliveryService.getDeliveryStatus`: `getOrDefault`. */
  function StatusIn(statuses: map<string, string>, id: string): string
  {
    if id in statuses then statuses[id] else NotFound
  }

  /** Adapter A's conversion of an order id to the external service's `int`. */
  function ParseId(id: string): Result<int, DeliveryError>
  {
    match Strings.ParseInt(id)
    case Success(n) => Success(n)
    case Failure(e) => Failure(BadNumber(e))
  }

  /** `deliverOrder`: the internal service records the order as in transit;
      adapter A only needs the id to parse; adapters B and C accept any id.
      The console messages are not modelled. */
  function DeliverOrder(s: Service, id: string): (r: Result<Service, DeliveryError>)
    ensures r.Failure? <==> s.AdapterA? && Strings.ParseInt(id).Failure?
    ensures r.Failure? ==> r.error == BadNumber(Strings.NumberFormat(id))
    ensures r.Success? && !s.Internal? ==> r.value == s
    ensures s.Internal? ==>
      && r.Success? && r.value.Internal?
      && StatusIn(r.value.statuses, id) == InTransit
      && forall k | k != id :: StatusIn(r.value.statuses, k) == StatusIn(s.statuses, k)
  {
    match s
    case Internal(statuses) => Success(Internal(statuses[id := InTransit]))
    case AdapterA =>
      var n :- ParseId(id);
      Success(s)
    case AdapterB => Success(s)
    case AdapterC => Success(s)
  }

  /** `getDeliveryStatus`. Adapter A reports the parsed number, so ids that
      parse alike read alike; B and C echo the id inside a fixed text. */
  function DeliveryStatus(s: Service, id: string): (r: Result<string, DeliveryError>)
    ensures r.Failure? <==> s.AdapterA? && Strings.ParseInt(id).Failure?
    ensures s.Internal? ==> r == Success(StatusIn(s.statuses, id))
    ensures s.AdapterA? && r.Success? ==>
      r.value == "Груз " + Strings.IntToString(Strings.ParseInt(id).value) + " в пути"
    ensures s.AdapterB? ==> r == Success("Посылка " + id + " доставлена")
    ensures s.AdapterC? ==> r == Success("Заказ " + id + " на складе")
  {
    match s
    case Internal(statuses) => Success(StatusIn(statuses, id))
    case AdapterA =>
      var n :- ParseId(id);
      Success("Груз " + Strings.IntToString(n) + " в пути")
    case AdapterB => Success("Посылка " + id + " доставлена")
    case AdapterC => Success("Заказ " + id + " на складе")
  }

  /** `calculateDeliveryCost`: a constant per service, whatever the id;
      adapter A still parses the id first and fails when it cannot. */
  function DeliveryCost(s: Service, id: string): (r: Result<int, DeliveryError>)
    ensures r.Failure? <==> s.AdapterA? && Strings.ParseInt(id).Failure?
    ensures r.Success? ==> r.value == CostOf(s)
    ensures r.Success? ==> r.value in {100, 150, 200, 250}
  {
    match s
    case Internal(_) => Success(100)
    case AdapterA =>
      var n :- ParseId(id);
      Success(150)
    case AdapterB => Success(200)
    case AdapterC => Success(250)
  }

  /** The cost each kind of service charges. */
  function CostOf(s: Service): int
  {
    match s
    case Internal(_) => 100
    case AdapterA => 150
    case AdapterB => 200
    case AdapterC => 250
  }

  // ---------------------------------------------------------------------
  // The factory

  const InternalKey := "Внутренняя"
  const KeyA := "ВнешняяA"
  const KeyB := "ВнешняяB"
  const KeyC := "ВнешняяC"

  /** `DeliveryServiceFactory.getDeliveryService`: a fresh internal service
      starts with no recorded orders. */
  function GetDeliveryService(kind: string): (r: Result<Service, DeliveryError>)
    ensures r.Success? <==> kind in {InternalKey, KeyA, KeyB, KeyC}
    ensures r.Failure? ==> r.error == IllegalArgument("Некорректный тип службы доставки: " + kind)
    ensures r.Success? && r.value.Internal? ==> forall id :: StatusIn(r.value.statuses, id) == NotFound
  {
    if kind == InternalKey then Success(Internal(map[]))
    else if kind == KeyA then Success(AdapterA)
    else if kind == KeyB then Success(AdapterB)
    else if kind == KeyC then Success(AdapterC)
    else Failure(IllegalArgument("Некорректный тип службы доставки: " + kind))
  }

  /** Each key names its own service: the factory tells the four apart. */
  lemma FactoryKeysAreDistinct()
    ensures GetDeliveryService(InternalKey) == Success(Internal(map[]))
    ensures GetDeliveryService(KeyA) == Success(AdapterA)
    ensures GetDeliveryService(KeyB) == Success(AdapterB)
    ensures GetDeliveryService(KeyC) == Success(AdapterC)
  {
    assert KeyA != InternalKey by { assert KeyA[0] != InternalKey[1]; }
  }

  // ---------------------------------------------------------------------
  // Sequences of deliveries

  /** `deliverOrder` for each id in turn, stopping at the first exception. */
  function DeliverAll(s: Service, ids: seq<string>): Result<Service, DeliveryError>
    decreases |ids|
  {
    if |ids| == 0 then Success(s)
    else
      var s' :- DeliverOrder(s, ids[0]);
      DeliverAll(s', ids[1..])
  }

  /** The internal service knows exactly the orders delivered through it:
      an id reads "in transit" if it was delivered and "not found"
      otherwise. */
  lemma {:induction false} InternalStatusAfterDeliveries(statuses: map<string, string>, ids: seq<string>, id: string)
    ensures DeliverAll(Internal(statuses), ids).Success?
    ensures var s := DeliverAll(Internal(statuses), ids).value;
      s.Internal? && StatusIn(s.statuses, id) == if id in ids then InTransit else StatusIn(statuses, id)
    decreases |ids|
  {
    if |ids| > 0 {
      var s' := DeliverOrder(Internal(statuses), ids[0]).value;
      InternalStatusAfterDeliveries(s'.statuses, ids[1..], id);
      assert id in ids <==> id == ids[0] || id in ids[1..];
    }
  }

  /** From a fresh internal service: delivered ids are in transit, all other
      ids are not found. */
  lemma FreshInternalStatus(ids: seq<string>, id: string)
    ensures var s := GetDeliveryService(InternalKey).value;
      && DeliverAll(s, ids).Success?
      && DeliveryStatus(DeliverAll(s, ids).value, id) == Success(if id in ids then InTransit else NotFound)
  {
    InternalStatusAfterDeliveries(map[], ids, id);
  }

  /** Delivering an order twice is the same as delivering it once. */
  lemma DeliverIsIdempotent(s: Service, id: string)
    requires DeliverOrder(s, id).Success?
    ensures DeliverOrder(DeliverOrder(s, id).value, id) == DeliverOrder(s, id)
  {
    if s.Internal? {
      assert s.statuses[id := InTransit][id := InTransit] == s.statuses[id := InTransit];
    }
  }

  /** Adapters B and C keep no state: any run of deliveries leaves them as
      they were, so their status never depends on what was delivered. */
  lemma {:induction false} StatelessAdapters(s: Service, ids: seq<string>, id: string)
    requires s.AdapterB? || s.AdapterC?
    ensures DeliverAll(s, ids) == Success(s)
    ensures DeliveryStatus(DeliverAll(s, ids).value, id) == DeliveryStatus(s, id)
    decreases |ids|
  {
    if |ids| > 0 {
      StatelessAdapters(s, ids[1..], id);
    }
  }

  /** Adapter A reports the number it parsed, not the text it was given:
      a 32-bit number's own text reads back as that number, and ids that
      parse to the same number get the same status. */
  lemma AdapterAStatusOfNumber(n: int)
    requires Strings.IntMin <= n <= Strings.IntMax
    ensures DeliveryStatus(AdapterA, Strings.IntToString(n)) == Success("Груз " + Strings.IntToString(n) + " в пути")
  {
    Strings.ParseIntOfIntToString(n);
  }

  lemma AdapterASameNumberSameStatus(a: string, b: string)
    requires Strings.ParseInt(a).Success? && Strings.ParseInt(b).Success?
    requires Strings.ParseInt(a).value == Strings.ParseInt(b).value
    ensures DeliveryStatus(AdapterA, a) == DeliveryStatus(AdapterA, b)
  {
  }

  /** The sample client's internal service. */
  lemma SampleClient()
    ensures var s := GetDeliveryService(InternalKey).value;
      DeliveryStatus(DeliverOrder(s, "123").value, "123") == Success(InTransit)
    ensures DeliveryCost(GetDeliveryService(InternalKey).value, "123") == Success(100)
  {
    FactoryKeysAreDistinct();
  }

  /** The sample client's adapter A. */
  lemma SampleClientA()
    ensures GetDeliveryService(KeyA) == Success(AdapterA)
    ensures DeliveryStatus(AdapterA, "456") == Success("Груз " + "456" + " в пути")
    ensures DeliveryCost(AdapterA, "456") == Success(150)
  {
    FactoryKeysAreDistinct();
    AdapterAStatusOfNumber(456);
    assert Strings.NatToString(4) == "4";
    assert Strings.NatToString(45) == "45";
    assert Strings.IntToString(456) == "456";
  }

  /** The sample client's adapters B and C. */
  lemma SampleClientBC()
    ensures GetDeliveryService(KeyB) == Success(AdapterB)
    ensures DeliveryStatus(AdapterB, "789") == Success("Посылка 789 доставлена")
    ensures DeliveryCost(AdapterB, "789") == Success(200)
    ensures GetDeliveryService(KeyC) == Success(AdapterC)
    ensures DeliveryStatus(AdapterC, "101112") == Success("Заказ 101112 на складе")
    ensures DeliveryCost(AdapterC, "101112") == Success(250)
  {
    FactoryKeysAreDistinct();
    assert "Посылка " + "789" + " доставлена" == "Посылка 789 доставлена";
    assert "Заказ " + "101112" + " на складе" == "Заказ 101112 на складе";
  }
}
