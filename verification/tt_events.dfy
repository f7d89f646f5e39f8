/** nuxt-fe/composables/useTTEvents.ts: connecting until the source reports `open`,
    error on its `error` events or a constructor throw. `eventSource?.OPEN` is the
    constant 1 whenever a source exists, so toggling disconnects exactly when there is
    a source, whatever the connection state. */
module TTEvents {
  import opened Seqs
  import opened RoomEvents
  import TextStore

  datatype Hook = Hook(state: State, trace: seq<State>, source: Option<Source>, store: TextStore.Store)

  predicate Valid(h: Hook)
  {
    && TextStore.Valid(h.store)
    && h.state == (if |h.trace| == 0 then Disconnected else h.trace[|h.trace| - 1])
  }

  function Init(): (h: Hook)
    ensures Valid(h) && h.state == Disconnected && h.source == None
  {
    Hook(Disconnected, [], None, TextStore.Empty())
  }

  /** `connect`: connecting, with a new source for the room; a constructor throw sets
      `error` and leaves the previous reference. A missing list gives the empty query. */
  function Connect(h: Hook, base: string, roomId: string, codes: Option<seq<string>>, throws: bool): (r: Hook)
    requires Valid(h)
    ensures Valid(r) && r.store == h.store
    ensures throws ==> r.state == Error && r.trace == h.trace + [Connecting, Error] && r.source == h.source
    ensures !throws ==>
              && r.state == Connecting && r.trace == h.trace + [Connecting]
              && r.source == Some(Source(Url(base, roomId, LanguageQuery(codes)), false))
  {
    if throws then h.(state := Error, trace := h.trace + [Connecting, Error])
    else h.(state := Connecting, trace := h.trace + [Connecting],
            source := Some(Source(Url(base, roomId, LanguageQuery(codes)), false)))
  }

  /** `disconnect`: the source is closed and dropped, and the state is disconnected. */
  function Disconnect(h: Hook): (r: Hook)
    requires Valid(h)
    ensures Valid(r) && r.store == h.store
    ensures r.state == Disconnected && r.trace == h.trace + [Disconnected] && r.source == None
  {
    h.(state := Disconnected, trace := h.trace + [Disconnected], source := None)
  }

  /** `toggleConnection`. */
  function Toggle(h: Hook, base: string, roomId: string, codes: Option<seq<string>>, throws: bool): (r: Hook)
    requires Valid(h)
    ensures Valid(r)
    ensures h.source.Some? <==> r.state == Disconnected && r.source == None
  {
    if h.source.Some? then Disconnect(h) else Connect(h, base, roomId, codes, throws)
  }

  /** Source events: `open` connects and `error` sets the error state; the payload events
      go to the store. Nothing arrives without a source. */
  datatype SourceEvent = Open | SourceError | Payload(e: Event)

  function OnSourceEvent(h: Hook, ev: SourceEvent): (r: Hook)
    requires Valid(h)
    ensures Valid(r) && r.source == h.source
    ensures h.source.None? ==> r == h
    ensures h.source.Some? && ev.Open? ==> r.state == Connected && r.trace == h.trace + [Connected]
    ensures h.source.Some? && ev.SourceError? ==> r.state == Error && r.trace == h.trace + [Error]
    ensures h.source.Some? && ev.Payload? ==> r.store == Deliver(h.store, ev.e) && r.state == h.state
  {
    if h.source.None? then h
    else
      match ev
      case Open => h.(state := Connected, trace := h.trace + [Connected])
      case SourceError => h.(state := Error, trace := h.trace + [Error])
      case Payload(e) => h.(store := Deliver(h.store, e))
  }

  /** A connection that fails after construction is not retried by a toggle: the source
      still exists, so the toggle disconnects. */
  lemma ToggleAfterErrorDisconnects(h: Hook, base: string, roomId: string, codes: Option<seq<string>>)
    requires Valid(h) && h.source.None?
    ensures var failed := OnSourceEvent(Connect(h, base, roomId, codes, false), SourceError);
      && failed.state == Error
      && Toggle(failed, base, roomId, codes, false).state == Disconnected
  {
  }
}
