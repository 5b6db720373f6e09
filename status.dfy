/** How the service's loops fold the statuses of the calls they make:
    start with EOK and let every non-EOK status overwrite the result. */
module Status {
  import opened Types

  /** The result such a loop ends with after seeing `s`, in order. */
  function Aggregate(s: seq<int>): int
  {
    if s == [] then EOK
    else if Last(s) != EOK then Last(s)
    else Aggregate(s[..|s| - 1])
  }

  /** The loop ends with EOK exactly when every call succeeded, and otherwise
      with the status of the last call that failed. */
  lemma {:induction false} AggregateProperties(s: seq<int>)
    ensures Aggregate(s) == EOK <==> forall i | 0 <= i < |s| :: s[i] == EOK
    ensures Aggregate(s) != EOK ==>
              exists i | 0 <= i < |s| :: s[i] == Aggregate(s) && forall j | i < j < |s| :: s[j] == EOK
  {
    if s != [] && Last(s) == EOK {
      var p := s[..|s| - 1];
      AggregateProperties(p);
      assert forall i | 0 <= i < |p| :: p[i] == s[i];
      if Aggregate(s) != EOK {
        var i :| 0 <= i < |p| && p[i] == Aggregate(p) && forall j | i < j < |p| :: p[j] == EOK;
        assert s[i] == Aggregate(s) && forall j | i < j < |s| :: s[j] == EOK;
      }
    }
  }

  /** One more step of the loop. */
  lemma AggregateStep(s: seq<int>, rc: int)
    ensures Aggregate(s + [rc]) == if rc != EOK then rc else Aggregate(s)
  {
    assert (s + [rc])[..|s|] == s;
  }
}
