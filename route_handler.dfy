/** The path helpers of the HTTP route handler: the request path segments
    from a given position on, and the same segments joined back into a
    relative path with "/" between them. */
module RouteHandling {

  /** How many leading segments `Skip(starting)` drops from `count`
      segments: none for a count at or below zero, all of them for a count
      past the end. */
  function SkipCount(count: nat, starting: int): (n: nat)
    ensures n <= count
    ensures starting <= 0 ==> n == 0
    ensures starting >= count ==> n == count
    ensures 0 <= starting <= count ==> n == starting
  {
    if starting <= 0 then 0 else if starting >= count then count else starting
  }

  /** `segments.Skip(starting).ToArray()`: the suffix of the segments that
      begins at position `starting`, in order. The input is a value, so it
      is left as it was. */
  function ToPathSegments(segments: seq<string>, starting: int): (r: seq<string>)
    ensures 0 <= starting <= |segments| ==> r == segments[starting..]
    ensures starting >= |segments| ==> r == []
    ensures starting <= 0 ==> r == segments
    ensures |r| <= |segments|
    ensures forall i :: 0 <= i < |r| ==> r[i] == segments[|segments| - |r| + i]
  {
    segments[SkipCount(|segments|, starting)..]
  }

  /** The number of characters in all of `parts` together. */
  function TotalLength(parts: seq<string>): nat
  {
    if |parts| == 0 then 0 else |parts[0]| + TotalLength(parts[1..])
  }

  /** `string.Join("/", parts)`: the parts with one "/" between neighbours,
      none before the first and none after the last. */
  function Join(parts: seq<string>): (r: string)
    ensures |parts| == 0 ==> r == ""
    ensures |parts| >= 1 ==> |r| == TotalLength(parts) + |parts| - 1
  {
    if |parts| == 0 then ""
    else if |parts| == 1 then parts[0]
    else parts[0] + "/" + Join(parts[1..])
  }

  /** `s.Split('/')`: the pieces of `s` between its "/" characters; an
      empty string and every "/" at either end give an empty piece. */
  function Split(s: string): (r: seq<string>)
    ensures |r| >= 1
    decreases |s|
  {
    if |s| == 0 then [""]
    else
      var rest := Split(s[1..]);
      if s[0] == '/' then [""] + rest
      else [[s[0]] + rest[0]] + rest[1..]
  }

  /** A segment that holds no separator. */
  predicate IsSegment(part: string)
  {
    '/' !in part
  }

  /** `segments.Skip(starting).Join("/")`: the remaining segments joined by
      "/". No separator is added at either end: a non-empty result begins
      with the first remaining segment and ends with the last one, a single
      remaining segment comes back unchanged, and when the segments hold
      no "/" themselves, splitting the result at "/" gives back exactly the
      remaining segments. */
  function ToRelativePath(segments: seq<string>, starting: int): (r: string)
    ensures r == Join(ToPathSegments(segments, starting))
    ensures var rest := ToPathSegments(segments, starting);
            && (|rest| == 0 ==> r == "")
            && (|rest| == 1 ==> r == rest[0])
            && (|rest| >= 1 ==> rest[0] <= r && |rest[|rest| - 1]| <= |r| && r[|r| - |rest[|rest| - 1]|..] == rest[|rest| - 1])
            && (|rest| >= 1 && (forall i :: 0 <= i < |rest| ==> IsSegment(rest[i])) ==> Split(r) == rest)
  {
    var rest := ToPathSegments(segments, starting);
    JoinEnds(rest);
    if |rest| >= 1 && (forall i :: 0 <= i < |rest| ==> IsSegment(rest[i])) then
      SplitJoin(rest);
      Join(rest)
    else
      Join(rest)
  }

  /** The joined text begins with the first part and ends with the last. */
  lemma {:induction false} JoinEnds(parts: seq<string>)
    ensures |parts| >= 1 ==> parts[0] <= Join(parts)
    ensures |parts| >= 1 ==> |parts[|parts| - 1]| <= |Join(parts)|
    ensures |parts| >= 1 ==> Join(parts)[|Join(parts)| - |parts[|parts| - 1]|..] == parts[|parts| - 1]
  {
    if |parts| >= 2 {
      JoinEnds(parts[1..]);
      var tail := Join(parts[1..]);
      assert Join(parts) == parts[0] + "/" + tail;
      assert parts[1..][|parts[1..]| - 1] == parts[|parts| - 1];
    }
  }

  /** Splitting a segment followed by "/" and more text gives the segment
      and then the pieces of the rest. */
  lemma {:induction false} SplitAfterSegment(part: string, rest: string)
    requires IsSegment(part)
    ensures Split(part + "/" + rest) == [part] + Split(rest)
    decreases |part|
  {
    if |part| == 0 {
      assert part + "/" + rest == "/" + rest;
      assert ("/" + rest)[1..] == rest;
    } else {
      var s := part + "/" + rest;
      assert s[0] == part[0];
      assert s[1..] == part[1..] + "/" + rest;
      SplitAfterSegment(part[1..], rest);
      assert [part[0]] + part[1..] == part;
    }
  }

  /** A lone segment splits into itself. */
  lemma {:induction false} SplitSegment(part: string)
    requires IsSegment(part)
    ensures Split(part) == [part]
    decreases |part|
  {
    if |part| > 0 {
      SplitSegment(part[1..]);
      assert [part[0]] + part[1..] == part;
    }
  }

  /** Splitting undoes joining, for one or more parts that hold no "/". */
  lemma {:induction false} SplitJoin(parts: seq<string>)
    requires |parts| >= 1
    requires forall i :: 0 <= i < |parts| ==> IsSegment(parts[i])
    ensures Split(Join(parts)) == parts
  {
    if |parts| == 1 {
      SplitSegment(parts[0]);
    } else {
      assert IsSegment(parts[0]);
      SplitJoin(parts[1..]);
      SplitAfterSegment(parts[0], Join(parts[1..]));
      assert [parts[0]] + parts[1..] == parts;
    }
  }

  /** Joining undoes splitting, for every text. */
  lemma {:induction false} JoinSplit(s: string)
    ensures Join(Split(s)) == s
    decreases |s|
  {
    if |s| > 0 {
      JoinSplit(s[1..]);
      var rest := Split(s[1..]);
      if s[0] == '/' {
        assert Split(s) == [""] + rest;
        assert ([""] + rest)[1..] == rest;
        assert s == "/" + s[1..];
      } else {
        var first := [s[0]] + rest[0];
        assert Split(s) == [first] + rest[1..];
        if |rest| == 1 {
          assert s == [s[0]] + s[1..];
        } else {
          assert ([first] + rest[1..])[1..] == rest[1..];
          assert Join(rest) == rest[0] + "/" + Join(rest[1..]);
          assert s == [s[0]] + s[1..];
        }
      }
    }
  }
}
