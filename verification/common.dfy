/**
 Shared vocabulary for the three backend components: optional values, results
 that carry the Python exception a call would raise, and the string-prefix facts
 that the slash-separated DynamoDB keys rely on.
 */
module Common {

  datatype Option<+T> = None | Some(value: T)

  /** The outcome of a Python call that either returns a value or raises. */
  datatype Result<+T, +E> = Ok(value: T) | Err(error: E)

  /** The exceptions the modelled Python code can raise on its own. */
  datatype PyError =
    | KeyError(key: string)
    | AssertionError(message: string)
    | AttributeError(message: string)

  /** Python's `s.startswith(prefix)`, and DynamoDB's `begins_with`. */
  predicate StartsWith(s: string, prefix: string)
  {
    |prefix| <= |s| && s[..|prefix|] == prefix
  }

  /** A key segment that cannot be confused with the `/` separator. */
  predicate NoSlash(s: string)
  {
    '/' !in s
  }

  /** A fixed prefix can be cancelled from both sides of an equation. */
  lemma {:induction false} PrefixCancel(p: string, u: string, v: string)
    ensures p + u == p + v <==> u == v
  {
    if p + u == p + v {
      assert u == (p + u)[|p|..];
      assert v == (p + v)[|p|..];
    }
  }

  /** The index of the first `/` in `s`, or `|s|` when there is none. */
  function FirstSlash(s: string): (i: nat)
    ensures i <= |s|
    ensures i < |s| ==> s[i] == '/'
    ensures forall j :: 0 <= j < i ==> s[j] != '/'
  {
    if |s| == 0 then 0
    else if s[0] == '/' then 0
    else 1 + FirstSlash(s[1..])
  }

  /** In `a/rest` with a slash-free `a`, the first separator sits right after `a`. */
  lemma {:induction false} FirstSlashAfterSegment(a: string, rest: string)
    requires NoSlash(a)
    ensures FirstSlash(a + "/" + rest) == |a|
  {
    var x := a + "/" + rest;
    if |a| == 0 {
      assert x[0] == '/';
    } else {
      assert a[0] in a;
      assert x[0] == a[0];
      assert x[1..] == a[1..] + "/" + rest;
      assert forall c :: c in a[1..] ==> c in a;
      FirstSlashAfterSegment(a[1..], rest);
    }
  }

  /**
   Splitting a string at its first `/`: when the segments before the
   separator are slash-free, the segments on both sides are determined.
   */
  lemma {:induction false} SlashTerminatedSplit(a: string, b: string, restA: string, restB: string)
    requires NoSlash(a) && NoSlash(b)
    requires a + "/" + restA == b + "/" + restB
    ensures a == b && restA == restB
  {
    var x := a + "/" + restA;
    FirstSlashAfterSegment(a, restA);
    FirstSlashAfterSegment(b, restB);
    assert |a| == |b|;
    assert a == x[..|a|];
    assert b == x[..|b|];
    assert restA == x[|a| + 1..];
    assert restB == x[|b| + 1..];
  }

  /**
   A `status/` prefix selects exactly one status out of `status/suffix`
   sort keys, provided neither status contains a `/`.
   */
  lemma {:induction false} SlashPrefixSelects(query: string, status: string, suffix: string)
    requires NoSlash(query) && NoSlash(status)
    ensures StartsWith(status + "/" + suffix, query + "/") <==> query == status
  {
    var sk := status + "/" + suffix;
    if query == status {
      assert sk[..|query| + 1] == query + "/";
    }
    if StartsWith(sk, query + "/") {
      var rest := sk[|query| + 1..];
      assert sk == sk[..|query| + 1] + rest;
      assert sk == query + "/" + rest;
      SlashTerminatedSplit(query, status, rest, suffix);
    }
  }
}
