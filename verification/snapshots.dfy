/** The endpoint list that travels from the reconciler through the informer to
    the workers: a Go `[]string`, which may be nil. */
module Snapshots {

  /** `Null` is the nil slice, which JSON encodes as `null`; `Slice(items)` is a
      non-nil slice, which JSON encodes as an array (`[]` when it is empty). */
  datatype Snapshot = Null | Slice(items: seq<string>) {

    /** What ranging over the slice visits. */
    function Entries(): seq<string> {
      if Null? then [] else items
    }
  }

  /** `[]string{}`: the non-nil empty slice both the informer and the worker start with. */
  const Empty: Snapshot := Slice([])

  /** Go's `append(s, x)`: appending to a nil slice allocates a new one. */
  function Append(s: Snapshot, x: string): (r: Snapshot)
    ensures r.Slice? && r.Entries() == s.Entries() + [x]
  {
    Slice(s.Entries() + [x])
  }

  /** The slice obtained by appending `xs` one by one to a nil slice. */
  function Built(xs: seq<string>): (r: Snapshot)
    ensures r.Entries() == xs
    ensures r.Null? <==> xs == []
  {
    if xs == [] then Null else Slice(xs)
  }
}
