/** The utterance stores of rr-frontend/app/stores/utterance.ts and nuxt-fe/stores/utterances.ts
    (the same behaviour under zustand and pinia): per utterance id, the latest
    transcription and the latest translation per language (replace semantics). */
module TextStore {
  import opened Seqs

  /** `committed` and `volatile` are optional strings. */
  datatype Text = Text(committed: Option<string>, volatile: Option<string>)

  datatype Utterance = Utterance(utteranceId: int, transcription: Text, translations: map<string, Text>)

  type Store = map<int, Utterance>

  predicate Valid(s: Store)
  {
    forall id :: id in s ==> s[id].utteranceId == id
  }

  function Empty(): (s: Store)
    ensures Valid(s) && |s| == 0
  {
    map[]
  }

  /** `putTranscription`: a new id gets an entry with no translations; a known id gets
      its transcription replaced and keeps its translations. */
  function PutTranscription(s: Store, id: int, t: Text): (r: Store)
    requires Valid(s)
    ensures Valid(r) && r.Keys == s.Keys + {id} && r[id].transcription == t
    ensures id !in s ==> r[id].translations == map[]
    ensures id in s ==> r[id].translations == s[id].translations
    ensures forall k :: k in s && k != id ==> r[k] == s[k]
  {
    if id !in s then s[id := Utterance(id, t, map[])]
    else s[id := s[id].(transcription := t)]
  }

  /** `putTranslation`: an unknown id changes nothing; a known id gets the text for this
      language set, and nothing else changes. */
  function PutTranslation(s: Store, id: int, lang: string, t: Text): (r: Store)
    requires Valid(s)
    ensures Valid(r) && r.Keys == s.Keys
    ensures id !in s ==> r == s
    ensures id in s ==> r[id].transcription == s[id].transcription
    ensures id in s ==> r[id].translations == s[id].translations[lang := t]
    ensures forall k :: k in s && k != id ==> r[k] == s[k]
  {
    if id !in s then s
    else s[id := s[id].(translations := s[id].translations[lang := t])]
  }

  /** `clearUtterances`: every utterance is forgotten. */
  function Clear(s: Store): (r: Store)
    ensures Valid(r) && forall id :: id !in r
  {
    Empty()
  }

  /** After a clear the store no longer depends on what it held: a translation for any
      id is ignored, and a transcription put yields the same store whatever came before. */
  lemma ClearForgets(s: Store, s2: Store, id: int, lang: string, t: Text)
    ensures PutTranslation(Clear(s), id, lang, t) == Clear(s)
    ensures PutTranscription(Clear(s), id, t) == PutTranscription(Clear(s2), id, t) == map[id := Utterance(id, t, map[])]
  {
  }

  /** Putting the same transcription twice is putting it once; the later of two puts wins. */
  lemma PutTranscriptionLastWins(s: Store, id: int, a: Text, b: Text)
    requires Valid(s)
    ensures PutTranscription(PutTranscription(s, id, a), id, b) == PutTranscription(s, id, b)
    ensures PutTranscription(PutTranscription(s, id, b), id, b) == PutTranscription(s, id, b)
  {
  }

  /** The same for translations of one language; translations of different languages or
      different utterances commute. */
  lemma PutTranslationLaws(s: Store, id: int, lang: string, a: Text, b: Text, id2: int, lang2: string)
    requires Valid(s)
    ensures PutTranslation(PutTranslation(s, id, lang, a), id, lang, b) == PutTranslation(s, id, lang, b)
    ensures (id, lang) != (id2, lang2) ==>
      PutTranslation(PutTranslation(s, id, lang, a), id2, lang2, b)
        == PutTranslation(PutTranslation(s, id2, lang2, b), id, lang, a)
  {
    if id in s {
      assert s[id].translations[lang := a][lang := b] == s[id].translations[lang := b];
    }
    if (id, lang) != (id2, lang2) && id == id2 && id in s {
      assert s[id].translations[lang := a][lang2 := b] == s[id].translations[lang2 := b][lang := a];
    }
  }

  /** A translation put before the utterance's transcription is lost; one put after it
      survives a later transcription put. */
  lemma TranslationNeedsTranscription(s: Store, id: int, lang: string, t: Text, u: Text)
    requires Valid(s) && id !in s
    ensures PutTranscription(PutTranslation(s, id, lang, t), id, u)[id].translations == map[]
    ensures lang in PutTranscription(PutTranslation(PutTranscription(s, id, u), id, lang, t), id, u)[id].translations
  {
  }
}
