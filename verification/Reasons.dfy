/** Lists of blocking reasons, grown by pushes and finished by sorting and dropping duplicates. */
module Reasons {
  import opened Text

  function When(condition: bool, reason: string): (r: seq<string>)
    ensures |r| == if condition then 1 else 0
  {
    if condition then [reason] else []
  }

  class ReasonList {
    var items: seq<string>

    constructor ()
      ensures items == []
    {
      items := [];
    }

    method PushIf(condition: bool, reason: string)
      modifies this
      ensures items == old(items) + When(condition, reason)
    {
      if condition {
        items := items + [reason];
      }
    }

    method Extend(more: seq<string>)
      modifies this
      ensures items == old(items) + more
    {
      items := items + more;
    }

    method SortAndDedup()
      modifies this
      ensures items == SortDedup(old(items))
    {
      items := SortDedup(items);
    }
  }

  lemma InWhen(condition: bool, reason: string, x: string)
    ensures x in When(condition, reason) <==> condition && x == reason
  {
  }

  lemma EmptyIffSortedEmpty(s: seq<string>)
    ensures SortDedup(s) == [] <==> s == []
  {
    assert s != [] ==> s[0] in s;
    assert s != [] ==> s[0] in SortDedup(s);
  }
}
