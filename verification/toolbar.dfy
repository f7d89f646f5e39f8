/** The reducer of rrfe/app/hooks/ToolbarContext.tsx: each action overwrites one field
    of the toolbar state. */
module Toolbar {
  import opened Seqs

  datatype Mode = FileMode | Mic

  datatype State = State(mode: Mode, selectedDeviceId: string, selectedLanguage: string, fileBuffer: Option<seq<bv8>>)

  /** `Unknown` is an action of any other type, which the reducer's default case returns
      the state for. */
  datatype Action =
    | SetMode(mode: Mode)
    | SetSelectedDeviceId(deviceId: string)
    | SetSelectedLanguage(language: string)
    | SetFileBuffer(buffer: seq<bv8>)
    | Unknown

  datatype Field = ModeField | DeviceField | LanguageField | FileField

  const DefaultLanguage: string := "spa_Latn"

  function Init(): (s: State)
    ensures s.mode == Mic && s.selectedDeviceId == "" && s.selectedLanguage == DefaultLanguage && s.fileBuffer == None
  {
    State(Mic, "", DefaultLanguage, None)
  }

  /** The field an action writes. */
  function Writes(a: Action): Option<Field>
  {
    match a
    case SetMode(_) => Some(ModeField)
    case SetSelectedDeviceId(_) => Some(DeviceField)
    case SetSelectedLanguage(_) => Some(LanguageField)
    case SetFileBuffer(_) => Some(FileField)
    case Unknown => None
  }

  function Reduce(s: State, a: Action): (r: State)
    // the written field takes the payload
    ensures a.SetMode? ==> r.mode == a.mode
    ensures a.SetSelectedDeviceId? ==> r.selectedDeviceId == a.deviceId
    ensures a.SetSelectedLanguage? ==> r.selectedLanguage == a.language
    ensures a.SetFileBuffer? ==> r.fileBuffer == Some(a.buffer)
    // every other field is kept
    ensures Writes(a) != Some(ModeField) ==> r.mode == s.mode
    ensures Writes(a) != Some(DeviceField) ==> r.selectedDeviceId == s.selectedDeviceId
    ensures Writes(a) != Some(LanguageField) ==> r.selectedLanguage == s.selectedLanguage
    ensures Writes(a) != Some(FileField) ==> r.fileBuffer == s.fileBuffer
  {
    match a
    case SetMode(m) => s.(mode := m)
    case SetSelectedDeviceId(d) => s.(selectedDeviceId := d)
    case SetSelectedLanguage(l) => s.(selectedLanguage := l)
    case SetFileBuffer(b) => s.(fileBuffer := Some(b))
    case Unknown => s
  }

  /** Dispatching an action twice is dispatching it once; of two actions on the same
      field the later wins; actions on different fields commute. */
  lemma ReduceLaws(s: State, a: Action, b: Action)
    ensures Reduce(Reduce(s, a), a) == Reduce(s, a)
    ensures Writes(a) == Writes(b) && Writes(a).Some? ==> Reduce(Reduce(s, a), b) == Reduce(s, b)
    ensures Writes(a) != Writes(b) ==> Reduce(Reduce(s, a), b) == Reduce(Reduce(s, b), a)
  {
  }
}
