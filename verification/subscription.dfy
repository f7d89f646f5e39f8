/** rr-frontend/app/hooks/useSubscription.ts: connecting, then connected as soon as the
    event source is constructed, error when construction throws. Stopping closes the
    source but keeps the reference. */
module Subscription {
  import opened Seqs
  import opened RoomEvents
  import TextStore

  datatype Hook = Hook(state: State, trace: seq<State>, source: Option<Source>, store: TextStore.Store)

  /** The state is the last one set, `disconnected` before any. */
  predicate Valid(h: Hook)
  {
    && TextStore.Valid(h.store)
    && h.state == (if |h.trace| == 0 then Disconnected else h.trace[|h.trace| - 1])
  }

  function Init(): (h: Hook)
    ensures Valid(h) && h.state == Disconnected && h.source == None
  {
    Hook(Disconnected, [], None, TextStore.Empty())
  }

  /** `startSubscribing`; `throws` is whether the `EventSource` constructor throws. A
      throw leaves the previous reference in place. */
  function Start(h: Hook, base: string, roomId: string, codes: Option<seq<string>>, throws: bool): (r: Hook)
    requires Valid(h)
    ensures Valid(r) && r.store == h.store
    ensures throws ==> r.state == Error && r.trace == h.trace + [Connecting, Error] && r.source == h.source
    ensures !throws ==>
              && r.state == Connected && r.trace == h.trace + [Connecting, Connected]
              && r.source == Some(Source(Url(base, roomId, LanguageQueryAsWritten(codes)), false))
  {
    if throws then h.(state := Error, trace := h.trace + [Connecting, Error])
    else h.(state := Connected, trace := h.trace + [Connecting, Connected],
            source := Some(Source(Url(base, roomId, LanguageQueryAsWritten(codes)), false)))
  }

  /** `stopSubscribing`: the source, if any, is closed, and the state is disconnected. */
  function Stop(h: Hook): (r: Hook)
    requires Valid(h)
    ensures Valid(r) && r.store == h.store && r.state == Disconnected && r.trace == h.trace + [Disconnected]
    ensures h.source.None? ==> r.source == None
    ensures h.source.Some? ==> r.source == Some(h.source.value.(closed := true))
  {
    var source := if h.source.Some? then Some(h.source.value.(closed := true)) else None;
    h.(state := Disconnected, trace := h.trace + [Disconnected], source := source)
  }

  /** `toggleSubscribing`: only a connected hook stops; every other state starts. */
  function Toggle(h: Hook, base: string, roomId: string, codes: Option<seq<string>>, throws: bool): (r: Hook)
    requires Valid(h)
    ensures Valid(r)
    ensures h.state == Connected ==> r.state == Disconnected
    ensures h.state != Connected ==> IsPrefix(h.trace + [Connecting], r.trace)
  {
    if h.state == Connected then Stop(h)
    else
      var r := Start(h, base, roomId, codes, throws);
      assert r.trace[..|h.trace| + 1] == h.trace + [Connecting];
      r
  }

  /** An event reaches the store only through a source that is still open. */
  function OnEvent(h: Hook, e: Event): (r: Hook)
    requires Valid(h)
    ensures Valid(r) && r.state == h.state && r.source == h.source
    ensures h.source.Some? && !h.source.value.closed ==> r.store == Deliver(h.store, e)
    ensures h.source.None? || h.source.value.closed ==> r == h
  {
    if h.source.Some? && !h.source.value.closed then h.(store := Deliver(h.store, e)) else h
  }

  /** A start that succeeds followed by a toggle ends disconnected with the new source
      closed, after which events no longer change the store. */
  lemma StartThenToggle(h: Hook, base: string, roomId: string, codes: Option<seq<string>>, e: Event)
    requires Valid(h)
    ensures var r := Toggle(Start(h, base, roomId, codes, false), base, roomId, codes, false);
      && r.state == Disconnected
      && r.source == Some(Source(Url(base, roomId, LanguageQueryAsWritten(codes)), true))
      && OnEvent(r, e) == r
  {
  }
}
