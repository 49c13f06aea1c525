/** Results shared by everything that publishes files. */
module Storage {

  /** How an atomic write ended. NotDurable is the error after the rename: the new
      content is on disk although an error came back. */
  datatype WriteResult = Written | NotDurable | NotWritten
}
