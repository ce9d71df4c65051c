/** The global `conversationHistories` object and the handlers that change
    it: get-or-create and the turn of `/api/chat`, `/api/reset`, the
    read-only `/api/debug` query and the hourly cleanup that keeps at most
    1000 dialogues, deleting the earliest-created keys first. */
module Sessions {
  import opened JsValues
  import opened PropertyOrder
  import opened Dialogue

  /** Most dialogues the cleanup keeps. */
  const MaxHistories: nat := 1000

  /** What `/api/debug` reports: the key, the transcript's length and the
      content of its first turn (`undefined` when there is none). */
  datatype DebugInfo = DebugInfo(clientId: string, historyLength: nat, firstMessage: Option<string>)

  /** The number of keys of a map whose keys are exactly those of an order
      without repetitions is the length of that order. */
  lemma DomainSize(m: map<string, seq<Turn>>, order: seq<string>)
    requires Distinct(order)
    requires forall k :: k in m <==> k in order
    ensures |m| == |order|
  {
    assert m.Keys == Elements(order);
    DistinctCardinality(order);
  }

  /** The keys of a prefix one longer are those of the prefix and one more. */
  lemma ElementsStep(s: seq<string>, i: nat)
    requires i < |s|
    ensures Elements(s[..i + 1]) == Elements(s[..i]) + {s[i]}
  {
  }

  /** Deleting keys one at a time deletes their union. */
  lemma MapMinusStep(m: map<string, seq<Turn>>, gone: set<string>, k: string)
    ensures (m - gone) - {k} == m - (gone + {k})
  {
  }

  class Store {
    /** Key to transcript. */
    var histories: map<string, seq<Turn>>
    /** The keys in `Object.keys` order, which is creation order. */
    var order: seq<string>

    /** Every key is listed once, the listed keys are the stored ones, and
        every transcript begins with the greeting. */
    ghost predicate Valid()
      reads this
    {
      && Distinct(order)
      && (forall k :: k in histories <==> k in order)
      && forall k :: k in histories ==> |histories[k]| > 0 && histories[k][0] == InitialMessage
    }

    /** `const conversationHistories = {}`. */
    constructor ()
      ensures Valid() && histories == map[] && order == []
    {
      histories := map[];
      order := [];
    }

    /** The transcript a chat request starts from: the stored one, or a
        fresh one for a key not seen before. */
    ghost function Current(clientId: string): seq<Turn>
      reads this
    {
      if clientId in histories then histories[clientId] else Seed
    }

    /** Seeds the transcript of a key not seen before; an existing key keeps
        its transcript and its place in the order. */
    method GetOrCreate(clientId: string) returns (clientHistory: seq<Turn>)
      requires Valid()
      modifies this
      ensures Valid()
      ensures clientId in old(histories) ==>
        histories == old(histories) && order == old(order) && clientHistory == old(histories[clientId])
      ensures clientId !in old(histories) ==>
        histories == old(histories)[clientId := Seed] && order == old(order) + [clientId] && clientHistory == Seed
    {
      if clientId !in histories {
        histories := histories[clientId := Seed];
        order := Assigned(order, clientId);
      }
      clientHistory := histories[clientId];
    }

    /** `clientHistory.push(turn)` on a stored transcript. */
    method Push(clientId: string, turn: Turn)
      requires Valid() && clientId in histories
      modifies this
      ensures Valid()
      ensures histories == old(histories)[clientId := old(histories[clientId]) + [turn]]
      ensures order == old(order)
    {
      histories := histories[clientId := histories[clientId] + [turn]];
    }

    /** `/api/chat` for the key `clientId`, with `complete` standing for the
        provider; only that key's transcript changes, as `Exchange` says. */
    method Chat(clientId: string, message: Option<string>, complete: seq<Turn> -> Outcome) returns (reply: Reply)
      requires Valid()
      modifies this
      ensures Valid()
      ensures var r := Exchange(old(Current(clientId)), message, complete);
        reply == r.reply && histories == old(histories)[clientId := r.transcript]
      ensures order == Assigned(old(order), clientId)
    {
      var clientHistory := GetOrCreate(clientId);
      if !Truthy(message) {
        return NoMessage;
      }
      Push(clientId, Turn(User, message.value));
      match complete(histories[clientId])
      case Completed(text) =>
        Push(clientId, Turn(Assistant, text));
        reply := Response(text);
      case Failed =>
        reply := ServerError;
    }

    /** `/api/reset`: the key's transcript becomes `[initialMessage]`,
        whether or not it existed; every other key is left alone. */
    method Reset(clientId: string)
      requires Valid()
      modifies this
      ensures Valid()
      ensures histories == old(histories)[clientId := Seed]
      ensures order == Assigned(old(order), clientId)
    {
      histories := histories[clientId := Seed];
      order := Assigned(order, clientId);
    }

    /** `/api/debug`: reads the store and creates nothing. */
    function Debug(clientId: string): (r: DebugInfo)
      requires Valid()
      reads this
      ensures r.clientId == clientId
      ensures r.historyLength == 0 <==> clientId !in histories
      ensures clientId in histories ==>
        r.historyLength == |histories[clientId]| && r.firstMessage == Some(Greeting)
      ensures clientId !in histories ==> r.firstMessage == None
    {
      var history := if clientId in histories then histories[clientId] else [];
      DebugInfo(clientId, |history|, if |history| > 0 then Some(history[0].content) else None)
    }

    /** `delete conversationHistories[key]`. */
    method Delete(key: string)
      requires Valid()
      modifies this
      ensures Valid()
      ensures histories == old(histories) - {key}
      ensures order == Without(old(order), key)
      ensures forall i :: 0 <= i < |old(order)| && old(order)[i] == key ==>
        order == old(order)[..i] + old(order)[i + 1..]
      ensures key !in old(order) ==> order == old(order)
    {
      forall i | 0 <= i < |order| && order[i] == key
        ensures Without(order, key) == order[..i] + order[i + 1..]
      {
        WithoutAt(order, i);
      }
      if key !in order {
        WithoutAbsent(order, key);
      }
      histories := histories - {key};
      order := Without(order, key);
    }

    /** `keysToRemove.forEach(key => delete conversationHistories[key])`
        for keys that are the first ones in enumeration order. */
    method DeleteAll(keysToRemove: seq<string>)
      requires Valid() && keysToRemove <= order
      modifies this
      ensures Valid()
      ensures order == old(order)[|keysToRemove|..]
      ensures histories == old(histories) - Elements(keysToRemove)
    {
      var i := 0;
      while i < |keysToRemove|
        invariant 0 <= i <= |keysToRemove|
        invariant Valid()
        invariant order == old(order)[i..]
        invariant histories == old(histories) - Elements(keysToRemove[..i])
      {
        assert order[0] == keysToRemove[i];
        WithoutFirst(order);
        ElementsStep(keysToRemove, i);
        MapMinusStep(old(histories), Elements(keysToRemove[..i]), keysToRemove[i]);
        Delete(keysToRemove[i]);
        i := i + 1;
      }
      assert keysToRemove[..i] == keysToRemove;
    }

    /** The cleanup callback with `maxHistories` as its bound: when there
        are more keys than that, the first `|keys| - maxHistories` of them
        in enumeration order are deleted. */
    method Sweep(maxHistories: nat)
      requires Valid()
      modifies this
      ensures Valid()
      ensures |old(order)| <= maxHistories ==> histories == old(histories) && order == old(order)
      ensures |old(order)| > maxHistories ==>
        var toRemove := |old(order)| - maxHistories;
        && order == old(order)[toRemove..]
        && histories == old(histories) - Elements(old(order)[..toRemove])
      ensures |histories| == if |old(histories)| <= maxHistories then |old(histories)| else maxHistories
    {
      DomainSize(histories, order);
      var historyKeys := order;
      if |historyKeys| > maxHistories {
        var toRemove := |historyKeys| - maxHistories;
        var keysToRemove := historyKeys[..toRemove];
        DeleteAll(keysToRemove);
        DomainSize(histories, order);
      }
    }

    /** The hourly cleanup: at most `MaxHistories` dialogues survive. */
    method Cleanup()
      requires Valid()
      modifies this
      ensures Valid()
      ensures |old(order)| <= MaxHistories ==> histories == old(histories) && order == old(order)
      ensures |old(order)| > MaxHistories ==>
        var toRemove := |old(order)| - MaxHistories;
        && order == old(order)[toRemove..]
        && histories == old(histories) - Elements(old(order)[..toRemove])
      ensures |histories| == if |old(histories)| <= MaxHistories then |old(histories)| else MaxHistories
    {
      Sweep(MaxHistories);
    }
  }

  /** A fresh store in which clients A to E started dialogues in that order. */
  method FiveClients() returns (store: Store)
    ensures fresh(store) && store.Valid()
    ensures store.order == ["A", "B", "C", "D", "E"]
  {
    store := new Store();
    var _ := store.GetOrCreate("A");
    assert store.order == ["A"];
    var _ := store.GetOrCreate("B");
    assert store.order == ["A", "B"];
    var _ := store.GetOrCreate("C");
    assert store.order == ["A", "B", "C"];
    var _ := store.GetOrCreate("D");
    assert store.order == ["A", "B", "C", "D"];
    var _ := store.GetOrCreate("E");
  }

  /** Five clients A to E start dialogues in that order and A then sends a
      message; a sweep bounded by three deletes the two keys created first,
      A among them, however recently it was used. */
  method SweepEvictsOldest() returns (remaining: seq<string>)
    ensures remaining == ["C", "D", "E"]
  {
    assert ["A", "B", "C", "D", "E"][2..] == ["C", "D", "E"];
    var store := FiveClients();
    var _ := store.Chat("A", Some("hola"), s => Completed("respuesta"));
    store.Sweep(3);
    remaining := store.order;
  }
}
