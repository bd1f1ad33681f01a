/** Pieces shared by the two in-memory repositories: the operations of the
    repository contracts (pkg/reservation.go, pkg/user.go), the failure a
    caller may inject into each, and the ascending-id row listing an
    auto-increment table answers with. */
module Table {
  import opened Pkg

  /** One constructor per method of the repository contracts. */
  datatype Op =
    | InsertOp
    | FindAllOp
    | FindByIDOp
    | FindByEmployeeIDOp
    | FindByDateOp
    | UpdateOp
    | DeleteByIDOp

  /** The keys in [lo, hi) whose row satisfies `p`, in ascending order. */
  function KeysWhere<T>(rows: map<int, T>, p: T -> bool, lo: int, hi: int): (ks: seq<int>)
    decreases hi - lo
    ensures forall i :: 0 <= i < |ks| ==> ks[i] in rows && lo <= ks[i] < hi && p(rows[ks[i]])
    ensures forall k :: k in rows && lo <= k < hi && p(rows[k]) ==> k in ks
    ensures forall i, j :: 0 <= i < j < |ks| ==> ks[i] < ks[j]
  {
    if lo >= hi then []
    else if lo in rows && p(rows[lo]) then [lo] + KeysWhere(rows, p, lo + 1, hi)
    else KeysWhere(rows, p, lo + 1, hi)
  }

  /** The rows stored under `ks`, in the same order. */
  function RowsAt<T>(rows: map<int, T>, ks: seq<int>): (s: seq<T>)
    requires forall i :: 0 <= i < |ks| ==> ks[i] in rows
    ensures |s| == |ks|
    ensures forall i :: 0 <= i < |s| ==> s[i] == rows[ks[i]]
  {
    seq(|ks|, i requires 0 <= i < |ks| => rows[ks[i]])
  }
}
