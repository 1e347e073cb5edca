/** An HTTP reply as the handlers write it: status code, headers in order, body. */
module Http {
  datatype Reply = Reply(status: nat, headers: seq<(string, string)>, body: string)
}
