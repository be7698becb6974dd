/** Uploaded documents, which are processed and then searched. */
module Documents {

  type DocId = nat

  datatype Status = Pending | Processing | Processed | Failed

  datatype Document = Document(id: DocId, user: int, status: Status)
}
