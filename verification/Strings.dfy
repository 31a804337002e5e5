/** `strings.Join` and `strings.Split` on a one-character separator. */
module Strings {

  function Join(parts: seq<string>, sep: char): string {
    if |parts| == 0 then ""
    else if |parts| == 1 then parts[0]
    else parts[0] + [sep] + Join(parts[1..], sep)
  }

  function Split(s: string, sep: char): (parts: seq<string>)
    ensures |parts| >= 1
  {
    if s == "" then [""]
    else
      var rest := Split(s[1..], sep);
      if s[0] == sep then [""] + rest
      else [[s[0]] + rest[0]] + rest[1..]
  }

  predicate Free(s: string, sep: char) { sep !in s }

  predicate AllFree(parts: seq<string>, sep: char) {
    forall i :: 0 <= i < |parts| ==> Free(parts[i], sep)
  }

  lemma {:induction false} SplitFree(s: string, sep: char)
    ensures Free(s, sep) <==> |Split(s, sep)| == 1
    ensures Free(s, sep) ==> Split(s, sep) == [s]
  {
    if s != "" {
      SplitFree(s[1..], sep);
      assert s == [s[0]] + s[1..];
    }
  }

  lemma {:induction false} SplitPartsFree(s: string, sep: char)
    ensures AllFree(Split(s, sep), sep)
  {
    if s != "" {
      SplitPartsFree(s[1..], sep);
      var rest := Split(s[1..], sep);
      forall i | 0 <= i < |Split(s, sep)| ensures Free(Split(s, sep)[i], sep) {
        if s[0] == sep {
          if i > 0 { assert Split(s, sep)[i] == rest[i - 1]; }
        } else if i > 0 {
          assert Split(s, sep)[i] == rest[i];
        }
      }
    }
  }

  /** Joining what was split gives the string back. */
  lemma {:induction false} JoinSplit(s: string, sep: char)
    ensures Join(Split(s, sep), sep) == s
  {
    if s != "" {
      JoinSplit(s[1..], sep);
      var rest := Split(s[1..], sep);
      if s[0] == sep {
        assert Split(s, sep)[1..] == rest;
        assert s == [sep] + s[1..];
      } else {
        assert Split(s, sep)[1..] == rest[1..];
        assert s == [s[0]] + s[1..];
      }
    }
  }

  /** Splitting distributes over a separator. */
  lemma {:induction false} SplitAt(a: string, b: string, sep: char)
    ensures Split(a + [sep] + b, sep) == Split(a, sep) + Split(b, sep)
  {
    var s := a + [sep] + b;
    if a == "" {
      assert s[1..] == b;
    } else {
      assert s[1..] == a[1..] + [sep] + b;
      SplitAt(a[1..], b, sep);
    }
  }

  /** Splitting a join yields at least its parts, and exactly them when they are free of the separator. */
  lemma {:induction false} SplitJoin(parts: seq<string>, sep: char)
    requires parts != []
    ensures |Split(Join(parts, sep), sep)| >= |parts|
    ensures |Split(Join(parts, sep), sep)| == |parts| <==> AllFree(parts, sep)
    ensures AllFree(parts, sep) ==> Split(Join(parts, sep), sep) == parts
  {
    SplitFree(parts[0], sep);
    if |parts| == 1 {
      assert parts == [parts[0]];
    } else {
      var rest := parts[1..];
      SplitJoin(rest, sep);
      SplitAt(parts[0], Join(rest, sep), sep);
      assert parts == [parts[0]] + rest;
      assert AllFree(parts, sep) <==> Free(parts[0], sep) && AllFree(rest, sep) by {
        if AllFree(parts, sep) {
          forall i | 0 <= i < |rest| ensures Free(rest[i], sep) { assert rest[i] == parts[i + 1]; }
        } else {
          var i :| 0 <= i < |parts| && !Free(parts[i], sep);
          if i > 0 { assert rest[i - 1] == parts[i]; }
        }
      }
    }
  }

  /** Joins of equally many parts are injective as soon as ONE side is free of the separator. */
  lemma JoinInjective(a: seq<string>, b: seq<string>, sep: char)
    requires a != [] && |a| == |b| && AllFree(a, sep)
    ensures Join(a, sep) == Join(b, sep) <==> a == b
  {
    SplitJoin(a, sep);
    SplitJoin(b, sep);
  }
}
