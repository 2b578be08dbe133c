/** The stored note record shared by the notes screens. */
module NoteEntities {
  /** `NoteEntity(id, text)`, the note as the notes database stores it. */
  datatype NoteEntity = NoteEntity(id: string, text: string)
}
