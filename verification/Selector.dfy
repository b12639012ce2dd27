/** The field selectors of a listing: `parseFieldSelector` in internal/store/mongo.go. */
module Selector {
  import opened Wrappers
  import opened Strings

  type Filter = map<string, string>

  /** One comma-separated segment; without "=" it selects nothing. */
  function ParseSegment(segment: string): Option<(string, string)> {
    var s := TrimSpace(segment);
    if '=' !in s then None
    else
      var i := IndexOf(s, '=');
      Some((TrimSpace(s[..i]), TrimSpace(s[i + 1..])))
  }

  function ParseSegments(segments: seq<string>): Filter {
    if segments == [] then map[]
    else
      var n := |segments| - 1;
      var before := ParseSegments(segments[..n]);
      match ParseSegment(segments[n])
      case None => before
      case Some((key, value)) => before[key := value]
  }

  function Parse(selector: string): Filter {
    if selector == "" then map[] else ParseSegments(Split(selector, ','))
  }

  method ParseFieldSelector(selector: string) returns (filter: Filter)
    ensures filter == Parse(selector)
  {
    filter := map[];
    if selector == "" {
      return;
    }
    var segments := Split(selector, ',');
    for i := 0 to |segments|
      invariant filter == ParseSegments(segments[..i])
    {
      assert segments[..i + 1][..i] == segments[..i];
      var s := TrimSpace(segments[i]);
      if '=' in s {
        var at := IndexOf(s, '=');
        var key, value := TrimSpace(s[..at]), TrimSpace(s[at + 1..]);
        filter := filter[key := value];
      }
    }
    assert segments[..|segments|] == segments;
  }

  lemma {:induction false} SegmentsConcat(a: seq<string>, b: seq<string>)
    ensures ParseSegments(a + b) == ParseSegments(a) + ParseSegments(b)
  {
    if b == [] {
      assert a + b == a;
    } else {
      var n := |b| - 1;
      assert (a + b)[..|a + b| - 1] == a + b[..n];
      SegmentsConcat(a, b[..n]);
    }
  }

  lemma ParseIsSegments(selector: string)
    ensures Parse(selector) == ParseSegments(Split(selector, ','))
  {
  }

  /** For all strings: a comma joins two selectors, and the later one overrides the earlier. */
  lemma ParseOfJoined(a: string, b: string)
    ensures Parse(a + "," + b) == Parse(a) + Parse(b)
  {
    SplitConcat(a, ',', b);
    SegmentsConcat(Split(a, ','), Split(b, ','));
    ParseIsSegments(a);
    ParseIsSegments(b);
  }

  /** A segment without "=" is ignored wherever it stands. */
  lemma SegmentWithoutEquals(a: string, segment: string, b: string)
    requires '=' !in segment && ',' !in segment
    ensures Parse(a + "," + segment + "," + b) == Parse(a + "," + b)
  {
    ParseOfJoined(a + "," + segment, b);
    ParseOfJoined(a, segment);
    ParseOfJoined(a, b);
    SplitNone(segment, ',');
    TrimIsPart(segment, '=');
    ParseIsSegments(segment);
    assert [segment][..0] == [];
    assert Parse(segment) == map[];
  }

  lemma {:induction false} TrimLeftPart(s: string, c: char)
    requires c !in s
    ensures c !in TrimLeft(s)
  {
    if s != [] && IsSpace(s[0]) {
      TrimLeftPart(s[1..], c);
    }
  }

  lemma {:induction false} TrimRightPart(s: string, c: char)
    requires c !in s
    ensures c !in TrimRight(s)
  {
    if s != [] && IsSpace(s[|s| - 1]) {
      TrimRightPart(s[..|s| - 1], c);
    }
  }

  lemma TrimIsPart(s: string, c: char)
    requires c !in s
    ensures c !in TrimSpace(s)
  {
    TrimLeftPart(s, c);
    TrimRightPart(TrimLeft(s), c);
  }

  // ----- Printing and parsing back --------------------------------------------------

  /** Filters that a selector can express. */
  predicate Printable(filter: Filter) {
    forall key :: key in filter ==>
      && Trimmed(key) && ',' !in key && '=' !in key
      && Trimmed(filter[key]) && ',' !in filter[key]
  }

  function Assignment(key: string, value: string): string {
    key + "=" + value
  }

  function Assignments(filter: Filter, keys: seq<string>): seq<string>
    requires forall key :: key in keys ==> key in filter
  {
    seq(|keys|, i requires 0 <= i < |keys| => Assignment(keys[i], filter[keys[i]]))
  }

  /** The comma-joined assignments, in the order of `keys`. */
  function Print(filter: Filter, keys: seq<string>): string
    requires forall key :: key in keys ==> key in filter
  {
    Join(Assignments(filter, keys), ',')
  }

  lemma TrimmedStays(s: string)
    requires Trimmed(s)
    ensures TrimSpace(s) == s
  {
    TrimSpaceIs("", s, "");
    assert "" + s + "" == s;
  }

  /** The first "=" separates; what stands before and behind it is trimmed. */
  lemma FirstEqualsSeparates(front: string, back: string)
    requires '=' !in front && Trimmed(front + "=" + back)
    ensures ParseSegment(front + "=" + back) == Some((TrimSpace(front), TrimSpace(back)))
  {
    var s := front + "=" + back;
    TrimmedStays(s);
    hide TrimSpace;
    IndexOfFirst(front, '=', back);
    assert s[|front|] == '=';
    assert s[..|front|] == front && s[|front| + 1..] == back;
  }

  lemma ParseAssignment(key: string, value: string)
    requires Trimmed(key) && '=' !in key && Trimmed(value)
    ensures ParseSegment(Assignment(key, value)) == Some((key, value))
  {
    var s := Assignment(key, value);
    assert Trimmed(s) by {
      assert s[0] == if key == "" then '=' else key[0];
      assert s[|s| - 1] == if value == "" then '=' else value[|value| - 1];
    }
    FirstEqualsSeparates(key, value);
    TrimmedStays(key);
    TrimmedStays(value);
  }

  lemma ParseOneMore(segments: seq<string>, segment: string, key: string, value: string)
    requires ParseSegment(segment) == Some((key, value))
    ensures ParseSegments(segments + [segment]) == ParseSegments(segments)[key := value]
  {
  }

  lemma AssignmentsOneMore(filter: Filter, front: seq<string>, key: string)
    requires (forall k :: k in front ==> k in filter) && key in filter
    ensures forall k :: k in front + [key] ==> k in filter
    ensures Assignments(filter, front + [key]) == Assignments(filter, front) + [Assignment(key, filter[key])]
  {
  }

  lemma {:induction false} ParseAssignments(filter: Filter, keys: seq<string>)
    requires Printable(filter) && forall key :: key in keys ==> key in filter
    ensures ParseSegments(Assignments(filter, keys)) == map key | key in keys :: filter[key]
  {
    if keys != [] {
      hide Assignments, ParseSegment;
      var front, key := keys[..|keys| - 1], keys[|keys| - 1];
      assert keys == front + [key] && key in filter;
      ParseAssignments(filter, front);
      ParseAssignment(key, filter[key]);
      AssignmentsOneMore(filter, front, key);
      ParseOneMore(Assignments(filter, front), Assignment(key, filter[key]), key, filter[key]);
    }
  }

  lemma AssignmentsCommaFree(filter: Filter, keys: seq<string>)
    requires Printable(filter) && forall key :: key in keys ==> key in filter
    ensures forall part :: part in Assignments(filter, keys) ==> ',' !in part
  {
  }

  /** Printing any expressible filter, its keys in any order, and parsing it returns the filter. */
  lemma PrintThenParse(filter: Filter, keys: seq<string>)
    requires Printable(filter) && forall key :: key in keys <==> key in filter
    ensures Parse(Print(filter, keys)) == filter
  {
    var parts := Assignments(filter, keys);
    if keys == [] {
      assert filter == map[];
    } else {
      AssignmentsCommaFree(filter, keys);
      SplitJoin(parts, ',');
      ParseIsSegments(Print(filter, keys));
      ParseAssignments(filter, keys);
    }
  }

  /** White space around a segment does not matter. */
  lemma OuterSpaces(before: string, segment: string, after: string)
    requires Blank(before) && Blank(after) && Trimmed(segment)
    ensures ParseSegment(before + segment + after) == ParseSegment(segment)
  {
    TrimSpaceIs(before, segment, after);
    TrimmedStays(segment);
  }

  /** White space around an assignment, its key and its value does not matter. */
  lemma SegmentIgnoresSpaces(before: string, key: string, left: string, right: string, value: string, after: string)
    requires Blank(before) && Blank(left) && Blank(right) && Blank(after)
    requires Trimmed(key) && key != "" && '=' !in key && Trimmed(value) && value != ""
    ensures ParseSegment(before + (key + left + "=" + (right + value)) + after) == Some((key, value))
  {
    var s := key + left + "=" + (right + value);
    SpacedAssignment(key + left, right + value);
    OuterSpaces(before, s, after);
    AsciiSpaces('=');
    FirstEqualsSeparates(key + left, right + value);
    OneSided(key, left, right, value);
  }

  lemma OneSided(key: string, left: string, right: string, value: string)
    requires Blank(left) && Blank(right) && Trimmed(key) && Trimmed(value)
    ensures TrimSpace(key + left) == key && TrimSpace(right + value) == value
  {
    TrimSpaceIs("", key, left);
    TrimSpaceIs(right, value, "");
    assert "" + key + left == key + left && right + value + "" == right + value;
  }

  lemma SpacedAssignment(front: string, back: string)
    requires front != "" && !IsSpace(front[0]) && back != "" && !IsSpace(back[|back| - 1])
    ensures Trimmed(front + "=" + back)
  {
    var s := front + "=" + back;
    assert s[0] == front[0] && s[|s| - 1] == back[|back| - 1];
  }

  /** So a padded selector parses like the bare one. */
  lemma PaddedSelector(before: string, key: string, left: string, right: string, value: string, after: string)
    requires Blank(before) && Blank(left) && Blank(right) && Blank(after)
    requires Trimmed(key) && key != "" && '=' !in key && ',' !in key && Trimmed(value) && value != "" && ',' !in value
    ensures Parse(before + (key + left + "=" + (right + value)) + after) == map[key := value]
  {
    var s := before + (key + left + "=" + (right + value)) + after;
    SegmentIgnoresSpaces(before, key, left, right, value, after);
    AsciiSpaces(',');
    ParseIsSegments(s);
    SplitNone(s, ',');
    assert [] + [s] == [s];
    ParseOneMore([], s, key, value);
  }
}
