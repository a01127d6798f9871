/** `Utils.join`: the strings of an array with a separator between neighbours. */
module StringUtils {

  /** The join of `strings` with `sep`, built from the last element backwards. */
  function Joined(strings: seq<string>, sep: string): string {
    if |strings| == 0 then ""
    else if |strings| == 1 then strings[0]
    else Joined(strings[..|strings| - 1], sep) + sep + strings[|strings| - 1]
  }

  /** Each string preceded by the separator: what follows the first element in a join. */
  function Prefixed(strings: seq<string>, sep: string): string {
    if strings == [] then "" else sep + strings[0] + Prefixed(strings[1..], sep)
  }

  /** The summed lengths of the strings. */
  function TotalLength(strings: seq<string>): nat {
    if strings == [] then 0 else |strings[0]| + TotalLength(strings[1..])
  }

  /** `join(strings, sep)`: appends each string, preceded by `sep` from the second one on. */
  method Join(strings: seq<string>, sep: string) returns (r: string)
    ensures r == Joined(strings, sep)
  {
    r := "";
    for i := 0 to |strings|
      invariant r == Joined(strings[..i], sep)
    {
      if i != 0 {
        r := r + sep;
      }
      r := r + strings[i];
      assert strings[..i + 1][..i] == strings[..i];
    }
    assert strings[..|strings|] == strings;
  }

  /** Joining no strings gives the empty string. */
  lemma JoinedEmpty(sep: string)
    ensures Joined([], sep) == ""
  {
  }

  /** Joining one string gives it back unchanged. */
  lemma JoinedSingle(s: string, sep: string)
    ensures Joined([s], sep) == s
  {
  }

  /** Appending a string to a non-empty array appends the separator and that string. */
  lemma JoinedSnoc(strings: seq<string>, x: string, sep: string)
    requires strings != []
    ensures Joined(strings + [x], sep) == Joined(strings, sep) + sep + x
  {
    assert (strings + [x])[..|strings|] == strings;
  }

  /**
   * The separator stands only between neighbours: the join is the first string
   * followed by every other one with `sep` in front, with nothing leading or trailing.
   */
  lemma {:induction false} JoinedFront(strings: seq<string>, sep: string)
    requires strings != []
    ensures Joined(strings, sep) == strings[0] + Prefixed(strings[1..], sep)
  {
    if |strings| > 1 {
      var front := strings[..|strings| - 1];
      JoinedFront(front, sep);
      assert front[1..] == strings[1..][..|strings| - 2];
      PrefixedSnoc(strings[1..][..|strings| - 2], strings[|strings| - 1], sep);
      assert strings[1..][..|strings| - 2] + [strings[|strings| - 1]] == strings[1..];
    }
  }

  lemma {:induction false} PrefixedSnoc(strings: seq<string>, x: string, sep: string)
    ensures Prefixed(strings + [x], sep) == Prefixed(strings, sep) + sep + x
  {
    if strings != [] {
      assert (strings + [x])[1..] == strings[1..] + [x];
      PrefixedSnoc(strings[1..], x, sep);
    }
  }

  /** A join of n ≥ 1 strings is as long as the strings together plus n - 1 separators. */
  lemma {:induction false} JoinedLength(strings: seq<string>, sep: string)
    requires strings != []
    ensures |Joined(strings, sep)| == TotalLength(strings) + (|strings| - 1) * |sep|
  {
    JoinedFront(strings, sep);
    PrefixedLength(strings[1..], sep);
  }

  lemma {:induction false} PrefixedLength(strings: seq<string>, sep: string)
    ensures |Prefixed(strings, sep)| == TotalLength(strings) + |strings| * |sep|
  {
    if strings != [] {
      PrefixedLength(strings[1..], sep);
    }
  }
}
