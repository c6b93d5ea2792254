/** Change tags: a change record's two category codes joined by "_", and
    Python's `str.split("_")` that the tools use to take them apart again. */
module ChangeTags {
  import opened Outcomes
  import opened Collections

  /** A land-cover category code, always handled as text. */
  type Code = string

  const Separator: char := '_'

  /** `code1 + "_" + code2`. */
  function Tag(code1: Code, code2: Code): string {
    code1 + [Separator] + code2
  }

  lemma PositionAfterPrefix(p: string, c: char, q: string)
    requires c !in p
    ensures Position(p + [c] + q, c) == |p|
  {
    var s := p + [c] + q;
    var i := Position(s, c);
    assert forall k | 0 <= k < i :: s[..i][k] == s[k];
    assert s[|p|] == c;
    assert forall k | 0 <= k < |p| :: s[k] == p[k];
  }

  /** Split stops at the first separator. */
  lemma SplitAtFirst(p: string, sep: char, q: string)
    requires sep !in p
    ensures Split(p + [sep] + q, sep) == [p] + Split(q, sep)
  {
    var s := p + [sep] + q;
    PositionAfterPrefix(p, sep, q);
    assert s[..|p|] == p;
    assert s[|p| + 1..] == q;
  }

  /** Python's `s.split(sep)` for a one-character separator. */
  function Split(s: string, sep: char): (parts: seq<string>)
    ensures |parts| >= 1
    ensures |parts| == 1 <==> sep !in s
    ensures forall k :: 0 <= k < |parts| ==> sep !in parts[k]
    decreases |s|
  {
    if sep !in s then [s]
    else
      var i := Position(s, sep);
      [s[..i]] + Split(s[i + 1..], sep)
  }

  /** Python's `sep.join(parts)`. */
  function Join(parts: seq<string>, sep: char): string
    requires |parts| >= 1
  {
    if |parts| == 1 then parts[0] else parts[0] + [sep] + Join(parts[1..], sep)
  }

  /** A text with a separator is its part before the first separator, the
      separator and the rest. */
  lemma AroundFirst(s: string, sep: char)
    requires sep in s
    ensures s == s[..Position(s, sep)] + [sep] + s[Position(s, sep) + 1..]
  {
  }

  /** One step of Split: the text before the first separator, then the
      split of what follows it. */
  lemma SplitUnfold(s: string, sep: char)
    requires sep in s
    ensures Split(s, sep) == [s[..Position(s, sep)]] + Split(s[Position(s, sep) + 1..], sep)
  {
  }

  /** One step of Join. */
  lemma JoinCons(head: string, parts: seq<string>, sep: char)
    requires |parts| >= 1
    ensures Join([head] + parts, sep) == head + [sep] + Join(parts, sep)
  {
    assert ([head] + parts)[1..] == parts;
  }

  /** Joining the parts of a split gives back the original text. */
  lemma {:induction false} JoinSplit(s: string, sep: char)
    ensures Join(Split(s, sep), sep) == s
    decreases |s|
  {
    if sep in s {
      var i := Position(s, sep);
      var rest := s[i + 1..];
      SplitUnfold(s, sep);
      JoinSplit(rest, sep);
      JoinCons(s[..i], Split(rest, sep), sep);
      AroundFirst(s, sep);
    }
  }

  /** Splitting a join of separator-free parts gives back the parts. */
  lemma {:induction false} SplitJoin(parts: seq<string>, sep: char)
    requires |parts| >= 1
    requires forall k :: 0 <= k < |parts| ==> sep !in parts[k]
    ensures Split(Join(parts, sep), sep) == parts
  {
    if |parts| > 1 {
      var rest := Join(parts[1..], sep);
      assert Join(parts, sep) == parts[0] + [sep] + rest;
      SplitJoin(parts[1..], sep);
      SplitAtFirst(parts[0], sep, rest);
      assert parts == [parts[0]] + parts[1..];
    }
  }

  /** Reading `code1, code2 = change.split("_")[0], change.split("_")[1]`;
      a tag without "_" has no second part, which the scripts fail on. */
  function ParseTag(tag: string): (r: Result<(Code, Code)>)
    ensures r.Ok? <==> Separator in tag
    ensures r.Ok? ==> Separator !in r.value.0 && Separator !in r.value.1
    ensures r.Err? ==> r.failure == MissingSeparator(tag)
  {
    var parts := Split(tag, Separator);
    if |parts| < 2 then Err(MissingSeparator(tag)) else Ok((parts[0], parts[1]))
  }

  /** Parsing a tag built from separator-free codes gives back the codes. */
  lemma TagRoundTrip(code1: Code, code2: Code)
    requires Separator !in code1 && Separator !in code2
    ensures ParseTag(Tag(code1, code2)) == Ok((code1, code2))
  {
    SplitJoin([code1, code2], Separator);
    assert Join([code1, code2], Separator) == Tag(code1, code2);
  }

  /** Everything after a second "_" is ignored. */
  lemma ExtraPartsIgnored(code1: Code, code2: Code, rest: string)
    requires Separator !in code1 && Separator !in code2
    ensures ParseTag(Tag(code1, code2) + [Separator] + rest) == Ok((code1, code2))
  {
    var tail := code2 + [Separator] + rest;
    assert Tag(code1, code2) + [Separator] + rest == code1 + [Separator] + tail;
    SplitAtFirst(code1, Separator, tail);
    SplitAtFirst(code2, Separator, rest);
  }

  /** The parts ParseTag returns: the text before the first "_" and the
      first part of what follows it. */
  lemma ParseTagParts(tag: string)
    requires Separator in tag
    ensures ParseTag(tag).value ==
      (tag[..Position(tag, Separator)], Split(tag[Position(tag, Separator) + 1..], Separator)[0])
  {
    SplitUnfold(tag, Separator);
  }

  /** The first part of a split is the whole text or is followed by a separator. */
  lemma FirstPart(s: string, sep: char)
    ensures var first := Split(s, sep)[0];
      s == first || first + [sep] <= s
  {
    if sep in s {
      var i := Position(s, sep);
      assert Split(s, sep)[0] == s[..i];
      assert s[..i + 1] == s[..i] + [sep];
    }
  }

  /** Putting a code and "_" in front of a text that starts with a part. */
  lemma PrefixCombine(first: string, second: string, rest: string)
    requires rest == second || second + [Separator] <= rest
    ensures var t := first + [Separator] + rest;
      t == Tag(first, second) || Tag(first, second) + [Separator] <= t
  {
    if rest != second {
      var tail := rest[|second| + 1..];
      assert rest == second + [Separator] + tail;
      assert first + [Separator] + rest == Tag(first, second) + [Separator] + tail;
    }
  }

  /** A parsed tag starts with `code1_code2` and either ends there or goes
      on after one more "_". */
  lemma ParseTagShape(tag: string)
    requires ParseTag(tag).Ok?
    ensures var (code1, code2) := ParseTag(tag).value;
      tag == Tag(code1, code2) || Tag(code1, code2) + [Separator] <= tag
  {
    var i := Position(tag, Separator);
    AroundFirst(tag, Separator);
    ParseTagParts(tag);
    FirstPart(tag[i + 1..], Separator);
    PrefixCombine(tag[..i], Split(tag[i + 1..], Separator)[0], tag[i + 1..]);
  }

  /** What ParseTag accepts, exactly: the tag starts with `code1_code2` for
      separator-free codes and either ends there or goes on after one more "_". */
  lemma ParseTagExactly(tag: string, code1: Code, code2: Code)
    ensures ParseTag(tag) == Ok((code1, code2)) <==>
      Separator !in code1 && Separator !in code2 &&
      (tag == Tag(code1, code2) || Tag(code1, code2) + [Separator] <= tag)
  {
    var t := Tag(code1, code2);
    if ParseTag(tag) == Ok((code1, code2)) {
      ParseTagShape(tag);
    }
    if Separator !in code1 && Separator !in code2 {
      if tag == t {
        TagRoundTrip(code1, code2);
      } else if t + [Separator] <= tag {
        var rest := tag[|t| + 1..];
        assert tag == t + [Separator] + rest;
        ExtraPartsIgnored(code1, code2, rest);
      }
    }
  }

  /** Tags of separator-free codes identify the pair of codes. */
  lemma TagInjective(a: Code, b: Code, c: Code, d: Code)
    requires Separator !in a && Separator !in b && Separator !in c && Separator !in d
    requires Tag(a, b) == Tag(c, d)
    ensures a == c && b == d
  {
    TagRoundTrip(a, b);
    TagRoundTrip(c, d);
  }
}
