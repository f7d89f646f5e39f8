/** The utterance store of frontend/app/stores/utterance.ts: per utterance id, the
    transcription and translation tokens in arrival order (append semantics). Maps are
    values here; the source's copies share the mutated utterance objects, which makes
    no difference to what the store holds after each action. */
module TokenStore {
  import opened Seqs

  datatype Token = Token(value: string, tokenId: int)

  /** `translation` is optional in the source's type; `None` is a missing array. */
  datatype Utterance = Utterance(utteranceId: int, transcription: seq<Token>, translation: Option<seq<Token>>)

  type Store = map<int, Utterance>

  /** Every entry is filed under its own id. */
  predicate Valid(s: Store)
  {
    forall id :: id in s ==> s[id].utteranceId == id
  }

  function Empty(): (s: Store)
    ensures Valid(s) && |s| == 0
  {
    map[]
  }

  /** `addTranscriptionToken`: a new id gets an entry with this one token and an empty
      translation; a known id gets the token at the end of its transcription. */
  function AddTranscriptionToken(s: Store, id: int, t: Token): (r: Store)
    requires Valid(s)
    ensures Valid(r) && r.Keys == s.Keys + {id}
    ensures id !in s ==> r[id] == Utterance(id, [t], Some([]))
    ensures id in s ==> r[id] == s[id].(transcription := s[id].transcription + [t])
    ensures forall k :: k in s && k != id ==> r[k] == s[k]
  {
    if id !in s then s[id := Utterance(id, [t], Some([]))]
    else s[id := s[id].(transcription := s[id].transcription + [t])]
  }

  /** `addTranslationToken`: an unknown id changes nothing; a known id gets the token at
      the end of its translation, which is created when missing. */
  function AddTranslationToken(s: Store, id: int, t: Token): (r: Store)
    requires Valid(s)
    ensures Valid(r) && r.Keys == s.Keys
    ensures id !in s ==> r == s
    ensures id in s ==> r[id].transcription == s[id].transcription
    ensures id in s && s[id].translation.None? ==> r[id].translation == Some([t])
    ensures id in s && s[id].translation.Some? ==> r[id].translation == Some(s[id].translation.value + [t])
    ensures forall k :: k in s && k != id ==> r[k] == s[k]
  {
    if id !in s then s
    else
      var u := s[id];
      var tokens := if u.translation.None? then [t] else u.translation.value + [t];
      s[id := u.(translation := Some(tokens))]
  }

  datatype Action = AddTranscription(id: int, token: Token) | AddTranslation(id: int, token: Token) | Clear

  function Apply(s: Store, a: Action): (r: Store)
    requires Valid(s)
    ensures Valid(r)
  {
    match a
    case AddTranscription(id, t) => AddTranscriptionToken(s, id, t)
    case AddTranslation(id, t) => AddTranslationToken(s, id, t)
    case Clear => Empty()
  }

  function Replay(s: Store, acts: seq<Action>): (r: Store)
    requires Valid(s)
    ensures Valid(r)
    decreases |acts|
  {
    if |acts| == 0 then s else Apply(Replay(s, acts[..|acts| - 1]), acts[|acts| - 1])
  }

  /** The transcription tokens sent for `id`, in order. */
  function TokensFor(acts: seq<Action>, id: int): seq<Token>
  {
    if |acts| == 0 then []
    else
      var a := acts[|acts| - 1];
      TokensFor(acts[..|acts| - 1], id) + (if a.AddTranscription? && a.id == id then [a.token] else [])
  }

  /** Whether any transcription token was sent for `id`. */
  predicate Transcribed(acts: seq<Action>, id: int)
    decreases |acts|
  {
    |acts| > 0 && (Transcribed(acts[..|acts| - 1], id) || (acts[|acts| - 1].AddTranscription? && acts[|acts| - 1].id == id))
  }

  predicate NoClear(acts: seq<Action>)
  {
    forall i :: 0 <= i < |acts| ==> !acts[i].Clear?
  }

  lemma {:induction false} NoTokensUntranscribed(acts: seq<Action>, id: int)
    requires !Transcribed(acts, id)
    ensures TokensFor(acts, id) == []
    decreases |acts|
  {
    if |acts| > 0 {
      NoTokensUntranscribed(acts[..|acts| - 1], id);
    }
  }

  /** From an empty store and without a clear: only transcription tokens add keys, and
      an utterance's transcription is exactly its tokens in the order they came. */
  lemma {:induction false} ReplayFromEmpty(acts: seq<Action>, id: int)
    requires NoClear(acts)
    ensures id in Replay(Empty(), acts) <==> Transcribed(acts, id)
    ensures id in Replay(Empty(), acts) ==> Replay(Empty(), acts)[id].transcription == TokensFor(acts, id)
    decreases |acts|
  {
    if |acts| > 0 {
      var init := acts[..|acts| - 1];
      var a := acts[|acts| - 1];
      assert NoClear(init) by {
        assert forall i :: 0 <= i < |init| ==> init[i] == acts[i];
      }
      ReplayFromEmpty(init, id);
      var before := Replay(Empty(), init);
      assert Replay(Empty(), acts) == Apply(before, a);
      if a.AddTranscription? && a.id == id && id !in before {
        NoTokensUntranscribed(init, id);
      }
    }
  }

  /** A clear forgets everything before it. */
  lemma {:induction false} ClearForgets(s: Store, acts: seq<Action>, bs: seq<Action>)
    requires Valid(s)
    ensures Replay(s, acts + [Clear] + bs) == Replay(Empty(), bs)
    decreases |bs|
  {
    var xs := acts + [Clear] + bs;
    if |bs| == 0 {
      assert xs[..|xs| - 1] == acts;
    } else {
      assert xs[..|xs| - 1] == acts + [Clear] + bs[..|bs| - 1];
      ClearForgets(s, acts, bs[..|bs| - 1]);
    }
  }
}
