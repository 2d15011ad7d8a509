/** The messages of a history chunk, as far as the history code looks at them. */
module Messages {
  /** ts is in milliseconds; encodedSize is the length of the JSON encoding. */
  datatype Message = Message(id: string, ts: int, encodedSize: nat)
}
