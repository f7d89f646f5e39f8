/** The room registry of backend/app/services/rooms.py (`SSEManager`): rooms keyed by
    a 4-digit id, each holding the queues subscribed to its transcriptions and, per
    language code, to its translations, and the fan-out of translation messages.

    Queues are compared by identity and are modelled as numbers; the translation
    dictionary keeps insertion order, so it is an association list. Python's
    `KeyError` on an unknown room and the `HTTPException(404)` of `subscribe_to_room`
    are the `Err` results. */
module Rooms {
  import opened Seqs

  type QueueId = nat

  /** One translation message; its `committed`/`volatile` texts are carried as `body`. */
  datatype Message = Message(languageCode: string, body: string)

  datatype Entry = Entry(code: string, queues: seq<QueueId>)

  datatype Room = Room(utteranceId: int, transcriptions: seq<QueueId>, translations: seq<Entry>)

  datatype Manager = Manager(rooms: map<string, Room>)

  datatype Failure = NotFound | KeyError

  datatype Result<T> = Ok(value: T) | Err(failure: Failure)

  function NewRoom(): (r: Room)
    ensures r.utteranceId == 0 && r.transcriptions == [] && r.translations == []
  {
    Room(0, [], [])
  }

  // ---------------------------------------------------------------- room ids

  function Digit(d: nat): (c: char)
    requires d < 10
    ensures '0' <= c <= '9'
  {
    (48 + d) as char
  }

  /** `f"{n:04d}"` for `0 <= n <= 9999`. */
  function Format4(n: nat): (s: string)
    requires n < 10000
    ensures |s| == 4 && forall i :: 0 <= i < 4 ==> '0' <= s[i] <= '9'
  {
    [Digit(n / 1000), Digit(n / 100 % 10), Digit(n / 10 % 10), Digit(n % 10)]
  }

  /** A number below 10000 is determined by its four decimal digits. */
  lemma Digits4(n: nat)
    requires n < 10000
    ensures n == 1000 * (n / 1000) + 100 * (n / 100 % 10) + 10 * (n / 10 % 10) + n % 10
  {
    var c := n / 10;
    var b := c / 10;
    assert n == 10 * c + n % 10;
    assert c == 10 * b + c % 10;
    assert b == 10 * (b / 10) + b % 10;
    assert n / 100 == b;
    assert n / 1000 == b / 10;
  }

  /** Different numbers give different ids. */
  lemma Format4Injective(n: nat, m: nat)
    requires n < 10000 && m < 10000 && Format4(n) == Format4(m)
    ensures n == m
  {
    var s, t := Format4(n), Format4(m);
    assert s[0] == t[0] && s[1] == t[1] && s[2] == t[2] && s[3] == t[3];
    Digits4(n);
    Digits4(m);
  }

  /** The ids that can be drawn, from `"0000"` to the formatting of `k - 1`. */
  function Drawable(k: nat): set<string>
    requires k <= 10000
  {
    set n | 0 <= n < k :: Format4(n)
  }

  lemma {:induction false} DrawableSize(k: nat)
    requires k <= 10000
    ensures |Drawable(k)| == k
  {
    if k > 0 {
      DrawableSize(k - 1);
      DrawableStep(k);
      if Format4(k - 1) in Drawable(k - 1) {
        var n :| 0 <= n < k - 1 && Format4(n) == Format4(k - 1);
        Format4Injective(n, k - 1);
      }
    }
  }

  lemma DrawableStep(k: nat)
    requires 0 < k <= 10000
    ensures Drawable(k) == Drawable(k - 1) + {Format4(k - 1)}
  {
    forall s | s in Drawable(k)
      ensures s in Drawable(k - 1) + {Format4(k - 1)}
    {
      var n :| 0 <= n < k && s == Format4(n);
      if n < k - 1 {
        assert s in Drawable(k - 1);
      }
    }
    forall s | s in Drawable(k - 1) + {Format4(k - 1)}
      ensures s in Drawable(k)
    {
      if s != Format4(k - 1) {
        var n :| 0 <= n < k - 1 && s == Format4(n);
        assert s in Drawable(k);
      }
    }
  }

  lemma SubsetSize<T>(a: set<T>, b: set<T>)
    requires a <= b
    ensures |a| <= |b|
  {
    assert b == a + (b - a);
  }

  /** While fewer than 10000 rooms exist, some draw gives a free id. */
  lemma FreeIdExists(m: Manager)
    requires |m.rooms| < 10000
    ensures exists n :: 0 <= n < 10000 && Format4(n) !in m.rooms
  {
    DrawableSize(10000);
    if forall n :: 0 <= n < 10000 ==> Format4(n) in m.rooms {
      SubsetSize(Drawable(10000), m.rooms.Keys);
    }
  }

  /** `create_room`, with the random draws given in order: the first draw whose id is
      free names a new empty room. `None` means the draws ran out before a free id. */
  function CreateRoom(m: Manager, draws: seq<nat>): (r: Option<(Manager, string)>)
    requires forall i :: 0 <= i < |draws| ==> draws[i] < 10000
    ensures r.None? <==> forall i :: 0 <= i < |draws| ==> Format4(draws[i]) in m.rooms
    ensures r.Some? ==>
      var (m', id) := r.value;
      && id !in m.rooms
      && (exists i :: 0 <= i < |draws| && id == Format4(draws[i]))
      && m'.rooms == m.rooms[id := NewRoom()]
    decreases |draws|
  {
    if |draws| == 0 then None
    else
      var id := Format4(draws[0]);
      if id !in m.rooms then Some((Manager(m.rooms[id := NewRoom()]), id))
      else
        var r := CreateRoom(m, draws[1..]);
        assert forall i :: 1 <= i < |draws| ==> draws[i] == draws[1..][i - 1];
        r
  }

  /** A draw of a free id always succeeds, so with fewer than 10000 rooms some draw does. */
  lemma CreateRoomSucceeds(m: Manager)
    requires |m.rooms| < 10000
    ensures exists n :: 0 <= n < 10000 && CreateRoom(m, [n]).Some?
  {
    FreeIdExists(m);
    var n :| 0 <= n < 10000 && Format4(n) !in m.rooms;
    assert CreateRoom(m, [n]).Some?;
  }

  // ---------------------------------------------------------- translations dict

  function Keys(t: seq<Entry>): seq<string>
  {
    if |t| == 0 then [] else Keys(t[..|t| - 1]) + [t[|t| - 1].code]
  }

  lemma {:induction false} KeysAt(t: seq<Entry>)
    ensures |Keys(t)| == |t| && forall i :: 0 <= i < |t| ==> Keys(t)[i] == t[i].code
  {
    if |t| > 0 {
      KeysAt(t[..|t| - 1]);
    }
  }

  function Lookup(t: seq<Entry>, code: string): Option<seq<QueueId>>
  {
    if |t| == 0 then None
    else if t[|t| - 1].code == code then Some(t[|t| - 1].queues)
    else Lookup(t[..|t| - 1], code)
  }

  /** Keys are distinct and every key maps to a non-empty list. */
  predicate WellFormed(t: seq<Entry>)
  {
    && (forall i, j :: 0 <= i < j < |t| ==> t[i].code != t[j].code)
    && (forall i :: 0 <= i < |t| ==> |t[i].queues| > 0)
  }

  /** With distinct keys, the lookup finds the entry holding the key. */
  lemma {:induction false} LookupAt(t: seq<Entry>, i: nat)
    requires WellFormed(t) && i < |t|
    ensures Lookup(t, t[i].code) == Some(t[i].queues)
    decreases |t|
  {
    if i < |t| - 1 {
      LookupAt(t[..|t| - 1], i);
    }
  }

  lemma {:induction false} LookupAbsent(t: seq<Entry>, code: string)
    ensures Lookup(t, code).None? <==> forall i :: 0 <= i < |t| ==> t[i].code != code
    decreases |t|
  {
    if |t| > 0 {
      LookupAbsent(t[..|t| - 1], code);
    }
  }

  /** Index of the entry holding `code`, or `|t|`. */
  function IndexOf(t: seq<Entry>, code: string): (k: nat)
    ensures k <= |t|
    ensures k < |t| ==> t[k].code == code
    ensures forall i :: 0 <= i < k ==> t[i].code != code
  {
    if |t| == 0 then 0
    else if t[0].code == code then 0
    else 1 + IndexOf(t[1..], code)
  }

  /** One code of a subscription: the queue is appended to the code's list, which is
      created at the end of the dictionary when absent. */
  function AddQueue(t: seq<Entry>, code: string, q: QueueId): (r: seq<Entry>)
    requires WellFormed(t)
    ensures WellFormed(r)
    ensures Keys(r) == Keys(t) + (if Lookup(t, code).None? then [code] else [])
    ensures Lookup(r, code) == Some(if Lookup(t, code).Some? then Lookup(t, code).value + [q] else [q])
    ensures forall c :: c != code ==> Lookup(r, c) == Lookup(t, c)
  {
    var k := IndexOf(t, code);
    LookupAbsent(t, code);
    if k == |t| then
      var r := t + [Entry(code, [q])];
      AppendEntry(t, code, q);
      r
    else
      var r := t[k := Entry(code, t[k].queues + [q])];
      UpdateEntry(t, k, q);
      r
  }

  /** A new entry at the end adds its key last and changes no other lookup. */
  lemma AppendEntry(t: seq<Entry>, code: string, q: QueueId)
    requires WellFormed(t) && forall i :: 0 <= i < |t| ==> t[i].code != code
    ensures var r := t + [Entry(code, [q])];
      && WellFormed(r)
      && Keys(r) == Keys(t) + [code]
      && Lookup(r, code) == Some([q])
      && forall c :: c != code ==> Lookup(r, c) == Lookup(t, c)
  {
    var r := t + [Entry(code, [q])];
    assert r[..|t|] == t;
  }

  /** Appending to the list of an existing entry keeps the keys and the other lists. */
  lemma UpdateEntry(t: seq<Entry>, k: nat, q: QueueId)
    requires WellFormed(t) && k < |t|
    ensures var r := t[k := Entry(t[k].code, t[k].queues + [q])];
      && WellFormed(r)
      && Keys(r) == Keys(t)
      && Lookup(t, t[k].code) == Some(t[k].queues)
      && Lookup(r, t[k].code) == Some(t[k].queues + [q])
      && forall c :: c != t[k].code ==> Lookup(r, c) == Lookup(t, c)
  {
    var code := t[k].code;
    var r := t[k := Entry(code, t[k].queues + [q])];
    LookupAt(t, k);
    KeysAt(t);
    KeysAt(r);
    LookupAt(r, k);
    forall c | c != code
      ensures Lookup(r, c) == Lookup(t, c)
    {
      LookupAbsent(t, c);
      LookupAbsent(r, c);
      if Lookup(t, c).Some? {
        var j :| 0 <= j < |t| && t[j].code == c;
        LookupAt(t, j);
        LookupAt(r, j);
      }
    }
  }

  function AddQueueAll(t: seq<Entry>, codes: seq<string>, q: QueueId): (r: seq<Entry>)
    requires WellFormed(t)
    ensures WellFormed(r)
    decreases |codes|
  {
    if |codes| == 0 then t else AddQueue(AddQueueAll(t, codes[..|codes| - 1], q), codes[|codes| - 1], q)
  }

  /** After subscribing with a list of codes, the queue is the last subscriber of the
      last code and is on the list of every code; other codes keep their lists. */
  lemma {:induction false} AddQueueAllEffect(t: seq<Entry>, codes: seq<string>, q: QueueId)
    requires WellFormed(t)
    ensures forall c :: c !in codes ==> Lookup(AddQueueAll(t, codes, q), c) == Lookup(t, c)
    ensures forall c :: c in codes ==> Lookup(AddQueueAll(t, codes, q), c).Some?
                                       && q in Lookup(AddQueueAll(t, codes, q), c).value
    decreases |codes|
  {
    if |codes| > 0 {
      var prefix := codes[..|codes| - 1];
      AddQueueAllEffect(t, prefix, q);
      assert forall c :: c in codes <==> c in prefix || c == codes[|codes| - 1];
    }
  }

  /** The `language_code` argument: absent, one code, or a list of codes. */
  datatype Languages = NoLanguage | One(code: string) | Many(codes: seq<string>)

  function CodeList(l: Languages): seq<string>
  {
    match l
    case NoLanguage => []
    case One(c) => [c]
    case Many(cs) => cs
  }

  predicate Valid(m: Manager)
  {
    forall id :: id in m.rooms ==> WellFormed(m.rooms[id].translations)
  }

  function Subscribe(m: Manager, roomId: string, q: QueueId, languages: Languages, noTranscriptions: bool): (r: Result<Manager>)
    requires Valid(m)
    ensures roomId !in m.rooms <==> r == Err(NotFound)
    ensures r.Ok? ==> Valid(r.value) && r.value.rooms.Keys == m.rooms.Keys
    ensures r.Ok? ==> forall id :: id in m.rooms && id != roomId ==> r.value.rooms[id] == m.rooms[id]
    ensures r.Ok? ==>
      var (before, after) := (m.rooms[roomId], r.value.rooms[roomId]);
      && after.utteranceId == before.utteranceId
      && after.transcriptions == before.transcriptions + (if noTranscriptions then [] else [q])
      && after.translations == AddQueueAll(before.translations, CodeList(languages), q)
  {
    if roomId !in m.rooms then Err(NotFound)
    else
      var room := m.rooms[roomId];
      var transcriptions := if noTranscriptions then room.transcriptions else room.transcriptions + [q];
      var translations := AddQueueAll(room.translations, CodeList(languages), q);
      Ok(Manager(m.rooms[roomId := Room(room.utteranceId, transcriptions, translations)]))
  }

  /** The subscribed codes, in the order they were first subscribed. */
  function SubscribedLanguageCodes(m: Manager, roomId: string): (r: Result<seq<string>>)
    ensures roomId !in m.rooms <==> r == Err(KeyError)
    ensures r.Ok? ==> r.value == Keys(m.rooms[roomId].translations)
    ensures r.Ok? ==> forall c :: c in r.value <==> Lookup(m.rooms[roomId].translations, c).Some?
  {
    if roomId !in m.rooms then Err(KeyError)
    else
      var t := m.rooms[roomId].translations;
      KeysAt(t);
      LookupAbsent(t, "");
      forall c ensures c in Keys(t) <==> Lookup(t, c).Some? {
        LookupAbsent(t, c);
      }
      Ok(Keys(t))
  }

  // ---------------------------------------------------------------- fan-out

  datatype Delivery = Delivery(queue: QueueId, message: Message)

  function FanOut(qs: seq<QueueId>, msg: Message): seq<Delivery>
  {
    if |qs| == 0 then [] else FanOut(qs[..|qs| - 1], msg) + [Delivery(qs[|qs| - 1], msg)]
  }

  /** Every `put_nowait`, in order: each message goes to every queue of its code;
      a message for a code nobody subscribed to goes nowhere. */
  function Deliveries(t: seq<Entry>, msgs: seq<Message>): seq<Delivery>
  {
    if |msgs| == 0 then []
    else
      var m := msgs[|msgs| - 1];
      Deliveries(t, msgs[..|msgs| - 1]) + (match Lookup(t, m.languageCode) case Some(qs) => FanOut(qs, m) case None => [])
  }

  function PushTranslationMessages(m: Manager, roomId: string, msgs: seq<Message>): (r: Result<seq<Delivery>>)
    ensures roomId !in m.rooms <==> r == Err(KeyError)
    ensures r.Ok? ==> r.value == Deliveries(m.rooms[roomId].translations, msgs)
  {
    if roomId !in m.rooms then Err(KeyError) else Ok(Deliveries(m.rooms[roomId].translations, msgs))
  }

  /** What one queue receives, in order. */
  function ReceivedBy(ds: seq<Delivery>, q: QueueId): seq<Message>
  {
    if |ds| == 0 then []
    else ReceivedBy(ds[..|ds| - 1], q) + (if ds[|ds| - 1].queue == q then [ds[|ds| - 1].message] else [])
  }

  lemma {:induction false} ReceivedByAppend(a: seq<Delivery>, b: seq<Delivery>, q: QueueId)
    ensures ReceivedBy(a + b, q) == ReceivedBy(a, q) + ReceivedBy(b, q)
    decreases |b|
  {
    if |b| == 0 {
      assert a + b == a;
    } else {
      var b' := b[..|b| - 1];
      assert (a + b)[..|a + b| - 1] == a + b';
      ReceivedByAppend(a, b', q);
    }
  }

  /** How many times `q` is on a list. */
  function Occurrences(qs: seq<QueueId>, q: QueueId): nat
  {
    if |qs| == 0 then 0 else Occurrences(qs[..|qs| - 1], q) + (if qs[|qs| - 1] == q then 1 else 0)
  }

  function Repeat(msg: Message, n: nat): seq<Message>
  {
    if n == 0 then [] else Repeat(msg, n - 1) + [msg]
  }

  lemma {:induction false} RepeatAdd(msg: Message, a: nat, b: nat)
    ensures Repeat(msg, a + b) == Repeat(msg, a) + Repeat(msg, b)
    decreases b
  {
    if b > 0 {
      RepeatAdd(msg, a, b - 1);
    }
  }

  lemma {:induction false} FanOutReceived(qs: seq<QueueId>, msg: Message, q: QueueId)
    ensures ReceivedBy(FanOut(qs, msg), q) == Repeat(msg, Occurrences(qs, q))
    decreases |qs|
  {
    if |qs| > 0 {
      var prefix := qs[..|qs| - 1];
      var last := Delivery(qs[|qs| - 1], msg);
      var extra := if qs[|qs| - 1] == q then 1 else 0;
      FanOutReceived(prefix, msg, q);
      assert FanOut(qs, msg) == FanOut(prefix, msg) + [last];
      ReceivedByAppend(FanOut(prefix, msg), [last], q);
      assert ReceivedBy([last], q) == (if qs[|qs| - 1] == q then [msg] else []) by {
        assert [last][..0] == [];
      }
      assert Occurrences(qs, q) == Occurrences(prefix, q) + extra;
      RepeatAdd(msg, Occurrences(prefix, q), extra);
      assert Repeat(msg, extra) == (if qs[|qs| - 1] == q then [msg] else []);
    }
  }

  /** How many copies of `msg` queue `q` is owed: once per time it is on the list of
      the message's code, none when the code has no subscribers. */
  function Owed(t: seq<Entry>, msg: Message, q: QueueId): nat
  {
    match Lookup(t, msg.languageCode) case Some(qs) => Occurrences(qs, q) case None => 0
  }

  /** The reference view of fan-out: each queue receives the messages in their order,
      each as many times as the queue is subscribed to its code. */
  function Expected(t: seq<Entry>, msgs: seq<Message>, q: QueueId): seq<Message>
  {
    if |msgs| == 0 then []
    else Expected(t, msgs[..|msgs| - 1], q) + Repeat(msgs[|msgs| - 1], Owed(t, msgs[|msgs| - 1], q))
  }

  lemma {:induction false} FanOutPerQueue(t: seq<Entry>, msgs: seq<Message>, q: QueueId)
    ensures ReceivedBy(Deliveries(t, msgs), q) == Expected(t, msgs, q)
    decreases |msgs|
  {
    if |msgs| > 0 {
      var prefix := msgs[..|msgs| - 1];
      var m := msgs[|msgs| - 1];
      FanOutPerQueue(t, prefix, q);
      var tail := match Lookup(t, m.languageCode) case Some(qs) => FanOut(qs, m) case None => [];
      ReceivedByAppend(Deliveries(t, prefix), tail, q);
      if Lookup(t, m.languageCode).Some? {
        FanOutReceived(Lookup(t, m.languageCode).value, m, q);
      }
    }
  }
}
