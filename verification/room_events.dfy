/** What the two subscriber hooks share: the room's event URL with its `target_lang`
    query, the connection states, and how a `transcription` or `translation` event
    reaches the replace-semantics utterance store. */
module RoomEvents {
  import opened Seqs
  import TextStore

  datatype State = Disconnected | Connecting | Connected | Error

  /** An `EventSource` for a URL, and whether `close()` was called on it. */
  datatype Source = Source(url: string, closed: bool)

  /** A server-sent event, its JSON payload already decoded. */
  datatype Event =
    | TranscriptionEvent(utteranceId: int, text: TextStore.Text)
    | TranslationEvent(utteranceId: int, languageCode: string, text: TextStore.Text)

  const Param: string := "target_lang="

  function Params(codes: seq<string>): (ps: seq<string>)
    ensures |ps| == |codes| && forall i :: 0 <= i < |codes| ==> ps[i] == Param + codes[i]
  {
    seq(|codes|, i requires 0 <= i < |codes| => Param + codes[i])
  }

  /** The query for the target languages: one `target_lang=<code>` per code joined by
      `&`, and the empty query when no list is given. */
  function LanguageQuery(codes: Option<seq<string>>): string
  {
    if codes.None? then "" else Join(Params(codes.value), "&")
  }

  /** rr-frontend's query: `undefined?.map(...)` is `undefined`, which the template
      literal turns into the text "undefined". */
  function LanguageQueryAsWritten(codes: Option<seq<string>>): (q: string)
    ensures codes.Some? ==> q == LanguageQuery(codes)
  {
    if codes.None? then "undefined" else Join(Params(codes.value), "&")
  }

  function Url(base: string, roomId: string, query: string): string
  {
    base + "/rooms/" + roomId + "/events?" + query
  }

  /** The `target_lang` values a server reads back from a query: the pieces between the
      `&`s that start with the parameter name, less the name. No percent- or `+`-decoding
      and no fragment handling is done, so this agrees with a real server only on codes
      that hold none of `&`, `+`, `%` and `#` (see `PlainCode`). */
  function ReadParams(query: string): seq<string>
  {
    if query == "" then [] else Values(Split(query, '&'))
  }

  function Values(pieces: seq<string>): seq<string>
  {
    if |pieces| == 0 then []
    else
      var p := pieces[0];
      (if |p| >= |Param| && p[..|Param|] == Param then [p[|Param|..]] else []) + Values(pieces[1..])
  }

  lemma {:induction false} ValuesOfParams(codes: seq<string>)
    ensures Values(Params(codes)) == codes
    decreases |codes|
  {
    if |codes| > 0 {
      ValuesOfParams(codes[1..]);
      assert Params(codes)[1..] == Params(codes[1..]);
      assert (Param + codes[0])[..|Param|] == Param && (Param + codes[0])[|Param|..] == codes[0];
      assert [codes[0]] + codes[1..] == codes;
    }
  }

  /** A code a server reads back verbatim: it neither separates parameters (`&`), starts a
      fragment (`#`) nor is altered by query decoding (`+`, `%`). */
  predicate PlainCode(code: string)
  {
    Avoids(code, '&') && Avoids(code, '+') && Avoids(code, '%') && Avoids(code, '#')
  }

  /** The server reads back exactly the codes, in order, when every code is plain. */
  lemma QueryRoundTrip(codes: seq<string>)
    requires forall i :: 0 <= i < |codes| ==> PlainCode(codes[i])
    ensures ReadParams(LanguageQuery(Some(codes))) == codes
  {
    var ps := Params(codes);
    if |codes| > 0 {
      forall i | 0 <= i < |ps| ensures Avoids(ps[i], '&') {
        assert forall k :: 0 <= k < |ps[i]| ==> ps[i][k] == if k < |Param| then Param[k] else codes[i][k - |Param|];
      }
      SplitJoin(ps, '&');
      assert LanguageQuery(Some(codes)) != "" by {
        assert |Join(ps, "&")| >= |ps[0]|;
      }
      ValuesOfParams(codes);
    }
  }

  /** Without a list, rr-frontend's query is the text "undefined" where the empty query is
      meant: the server reads no target language either way, but the URL carries a
      stray parameter. */
  lemma UndefinedQuery()
    ensures LanguageQueryAsWritten(None) == "undefined" && LanguageQuery(None) == ""
    ensures ReadParams(LanguageQueryAsWritten(None)) == [] == ReadParams(LanguageQuery(None))
  {
    assert Split("undefined", '&') == ["undefined"] by {
      SplitAvoiding("undefined", '&');
    }
  }

  /** The event's store update. */
  function Deliver(store: TextStore.Store, e: Event): (r: TextStore.Store)
    requires TextStore.Valid(store)
    ensures TextStore.Valid(r)
    ensures e.TranscriptionEvent? ==> r == TextStore.PutTranscription(store, e.utteranceId, e.text)
    ensures e.TranslationEvent? ==> r == TextStore.PutTranslation(store, e.utteranceId, e.languageCode, e.text)
  {
    match e
    case TranscriptionEvent(id, t) => TextStore.PutTranscription(store, id, t)
    case TranslationEvent(id, lang, t) => TextStore.PutTranslation(store, id, lang, t)
  }
}
