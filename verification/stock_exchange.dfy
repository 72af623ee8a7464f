/** The observer registry of practic7part2/src/Main.java: a stock exchange
    keeps, per stock symbol, the ordered list of observers to notify when the
    symbol's price changes. Observers are compared by object identity, carried
    here as `id`. */
module StockExchange {
  import opened Wrappers
  import Seqs

  datatype Observer =
    | Trader(id: nat, name: string)
    | AutomatedTrader(id: nat, name: string, threshold: real)

  function ObserverId(o: Observer): nat { o.id }

  /** The `observers` map: symbol to subscription list. */
  type Registry = map<string, seq<Observer>>

  /** One `update(symbol, price)` call made on an observer. */
  datatype Notice = Notice(observer: Observer, symbol: string, price: real)

  /** What an observer does with an update: a plain trader only reports it,
      the automated trader buys or sells. */
  datatype Reaction = Reported | Buy | Sell

  /** The list the exchange iterates for a symbol; absent symbols have none. */
  function Subscribers(reg: Registry, symbol: string): seq<Observer>
  {
    if symbol in reg then reg[symbol] else []
  }

  /** `subscribe`: creates the symbol's list when absent and appends the
      observer, duplicates included; other symbols keep their lists. */
  function Subscribe(reg: Registry, o: Observer, symbol: string): (r: Registry)
    ensures r.Keys == reg.Keys + {symbol}
    ensures Subscribers(r, symbol) == Subscribers(reg, symbol) + [o]
    ensures forall s | s in reg && s != symbol :: r[s] == reg[s]
  {
    reg[symbol := Subscribers(reg, symbol) + [o]]
  }

  /** `unsubscribe`: for a known symbol, removes the first entry that is the
      observer; an unknown symbol or an absent observer changes nothing, and
      an emptied list stays in the map. */
  function Unsubscribe(reg: Registry, o: Observer, symbol: string): (r: Registry)
    ensures r.Keys == reg.Keys
    ensures forall s | s in reg && s != symbol :: r[s] == reg[s]
    ensures Seqs.FirstIndex(Subscribers(reg, symbol), ObserverId, o.id).None? ==> r == reg
    ensures Seqs.FirstIndex(Subscribers(reg, symbol), ObserverId, o.id).Some? ==>
              var i := Seqs.FirstIndex(Subscribers(reg, symbol), ObserverId, o.id).value;
              r[symbol] == reg[symbol][..i] + reg[symbol][i + 1..]
  {
    if symbol in reg then reg[symbol := Seqs.RemoveFirst(reg[symbol], ObserverId, o.id)] else reg
  }

  /** Unsubscribing right after subscribing an observer that was not yet on a
      known symbol's list restores the registry. */
  lemma UnsubscribeUndoesSubscribe(reg: Registry, o: Observer, symbol: string)
    requires symbol in reg
    requires forall i | 0 <= i < |reg[symbol]| :: reg[symbol][i].id != o.id
    ensures Unsubscribe(Subscribe(reg, o, symbol), o, symbol) == reg
  {
    Seqs.RemoveFirstUndoesAppend(reg[symbol], ObserverId, o);
  }

  /** On a symbol nobody watched, subscribe-then-unsubscribe leaves the symbol
      in the map with an empty list, so later price changes reach no one. */
  lemma UnsubscribeLastKeepsEmptyList(reg: Registry, o: Observer, symbol: string)
    requires symbol !in reg
    ensures Unsubscribe(Subscribe(reg, o, symbol), o, symbol) == reg[symbol := []]
    ensures Subscribers(Unsubscribe(Subscribe(reg, o, symbol), o, symbol), symbol) == []
  {
    Seqs.RemoveFirstUndoesAppend([], ObserverId, o);
  }

  /** `notifyObservers`: one update per list entry, in subscription order,
      all carrying the symbol and the price. */
  method NotifyObservers(reg: Registry, symbol: string, price: real) returns (sent: seq<Notice>)
    ensures |sent| == |Subscribers(reg, symbol)|
    ensures forall i | 0 <= i < |sent| :: sent[i] == Notice(Subscribers(reg, symbol)[i], symbol, price)
  {
    sent := [];
    if symbol in reg {
      var list := reg[symbol];
      var k := 0;
      while k < |list|
        invariant 0 <= k <= |list|
        invariant |sent| == k
        invariant forall i | 0 <= i < k :: sent[i] == Notice(list[i], symbol, price)
      {
        sent := sent + [Notice(list[k], symbol, price)];
        k := k + 1;
      }
    }
  }

  /** `changePrice`: notifies exactly that symbol's subscribers with the new
      price; watchers of other symbols hear nothing. */
  method ChangePrice(reg: Registry, symbol: string, newPrice: real) returns (sent: seq<Notice>)
    ensures forall n | n in sent :: n.symbol == symbol && n.price == newPrice && n.observer in Subscribers(reg, symbol)
    ensures forall o | o in Subscribers(reg, symbol) :: Notice(o, symbol, newPrice) in sent
    ensures |sent| == |Subscribers(reg, symbol)|
    ensures forall i | 0 <= i < |sent| :: sent[i] == Notice(Subscribers(reg, symbol)[i], symbol, newPrice)
  {
    sent := NotifyObservers(reg, symbol, newPrice);
    forall o | o in Subscribers(reg, symbol)
      ensures Notice(o, symbol, newPrice) in sent
    {
      var i :| 0 <= i < |Subscribers(reg, symbol)| && Subscribers(reg, symbol)[i] == o;
      assert sent[i] == Notice(o, symbol, newPrice);
    }
  }

  /** `update`: the automated trader buys strictly below its threshold and
      sells otherwise, at the threshold included. */
  function React(o: Observer, price: real): (r: Reaction)
    ensures o.Trader? <==> r == Reported
    ensures r == Buy <==> o.AutomatedTrader? && price < o.threshold
    ensures r == Sell <==> o.AutomatedTrader? && price >= o.threshold
  {
    match o
    case Trader(_, _) => Reported
    case AutomatedTrader(_, _, t) => if price < t then Buy else Sell
  }

  // ---------------------------------------------------------------------
  // The client scenario of Main.main

  const Alexei := Trader(1, "Алексей")
  const Maria := Trader(2, "Мария")
  const Robot := AutomatedTrader(3, "Робот-1", 150.0)

  function ScenarioRegistry(): Registry
  {
    var r := Subscribe(map[], Alexei, "AAPL");
    var r := Subscribe(r, Maria, "AAPL");
    Subscribe(r, Robot, "TSLA")
  }

  /** After the three subscriptions AAPL reaches both traders and TSLA the
      robot; once Alexei unsubscribes, AAPL reaches Maria alone; the robot
      buys at 140 and 135. */
  lemma Scenario()
    ensures Subscribers(ScenarioRegistry(), "AAPL") == [Alexei, Maria]
    ensures Subscribers(ScenarioRegistry(), "TSLA") == [Robot]
    ensures Subscribers(Unsubscribe(ScenarioRegistry(), Alexei, "AAPL"), "AAPL") == [Maria]
    ensures React(Robot, 140.0) == Buy && React(Robot, 135.0) == Buy
  {
    var reg := ScenarioRegistry();
    assert Seqs.FirstIndex(reg["AAPL"], ObserverId, Alexei.id) == Some(0);
  }
}
