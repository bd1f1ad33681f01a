/** The structured log the decorators append to: one entry per logged call,
    each a list of key/value pairs as the go-kit logger receives them. The
    elapsed-time pair ("took") is not recorded. */
module Logging {
  import opened Pkg

  datatype Value = Text(text: string) | Number(number: int) | Failure(err: Option<Error>)

  datatype Field = Field(key: string, value: Value)

  type Entry = seq<Field>

  /** The keys of an entry, in order. */
  function Keys(e: Entry): (ks: seq<string>)
    ensures |ks| == |e|
    ensures forall i :: 0 <= i < |e| ==> ks[i] == e[i].key
  {
    seq(|e|, i requires 0 <= i < |e| => e[i].key)
  }

  /** The error an entry records: the value of its final "err" pair, which
      every call site puts last. */
  function LoggedError(e: Entry): (r: Option<Option<Error>>)
    ensures r.Some? <==> e != [] && e[|e| - 1].key == "err" && e[|e| - 1].value.Failure?
    ensures r.Some? ==> Field("err", Failure(r.value)) in e
  {
    if e != [] && e[|e| - 1].key == "err" && e[|e| - 1].value.Failure? then Some(e[|e| - 1].value.err)
    else None
  }
}
