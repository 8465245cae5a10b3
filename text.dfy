/** String search and splitting with the semantics of JavaScript's
    `String.prototype.indexOf`, `split` and `Array.prototype.join` for a
    non-empty separator string. */
module Text {

  datatype Option<T> = None | Some(value: T)

  /** The blank line that ends a frame of the event stream. */
  const Sep: string := "\n\n"

  /** The line terminator inside a frame. */
  const Newline: string := "\n"

  /** `sep` occurs in `s` starting at index `i`. */
  predicate OccursAt(s: string, sep: string, i: nat)
  {
    i + |sep| <= |s| && s[i..i + |sep|] == sep
  }

  ghost predicate Contains(s: string, sep: string)
  {
    exists i: nat :: OccursAt(s, sep, i)
  }

  predicate StartsWith(s: string, prefix: string)
  {
    |prefix| <= |s| && s[..|prefix|] == prefix
  }

  function Last<T>(xs: seq<T>): T
    requires |xs| >= 1
  {
    xs[|xs| - 1]
  }

  function Init<T>(xs: seq<T>): seq<T>
    requires |xs| >= 1
  {
    xs[..|xs| - 1]
  }

  /** `s.indexOf(sep, from)`, scanning forward from `from`: an occurrence at
      or after `from`; `IndexOfSpec` shows it is the leftmost one. */
  function IndexOf(s: string, sep: string, from: nat): (r: Option<nat>)
    requires |sep| > 0
    ensures r.Some? ==> from <= r.value && r.value + |sep| <= |s|
    decreases |s| - from
  {
    if from + |sep| > |s| then None
    else if OccursAt(s, sep, from) then Some(from)
    else IndexOf(s, sep, from + 1)
  }

  /** No occurrence at or after `from` comes before the one `IndexOf` finds,
      and there is none at all when it finds `None`. */
  lemma {:induction false} IndexOfSpec(s: string, sep: string, from: nat)
    requires |sep| > 0
    ensures IndexOf(s, sep, from).Some? ==> OccursAt(s, sep, IndexOf(s, sep, from).value)
    ensures forall j: nat :: from <= j && (IndexOf(s, sep, from).None? || j < IndexOf(s, sep, from).value) ==>
      !OccursAt(s, sep, j)
    decreases |s| - from
  {
    if from + |sep| > |s| {
    } else if OccursAt(s, sep, from) {
    } else {
      IndexOfSpec(s, sep, from + 1);
    }
  }

  /** `indexOf` finds nothing exactly when the text holds no occurrence. */
  lemma IndexOfNoneIffAbsent(s: string, sep: string)
    requires |sep| > 0
    ensures IndexOf(s, sep, 0).None? <==> !Contains(s, sep)
  {
    IndexOfSpec(s, sep, 0);
    if IndexOf(s, sep, 0).Some? {
      assert OccursAt(s, sep, IndexOf(s, sep, 0).value);
    }
  }

  /** `parts.join(sep)` for a non-empty array of parts. */
  function Join(parts: seq<string>, sep: string): string
    requires |parts| >= 1
  {
    if |parts| == 1 then parts[0] else parts[0] + sep + Join(parts[1..], sep)
  }

  /** The text that a list of complete frames stands for: each followed by `Sep`. */
  function Frames(parts: seq<string>): string
  {
    if parts == [] then "" else Frames(parts[..|parts| - 1]) + Last(parts) + Sep
  }

  /** `s.split(sep)`: the pieces between leftmost, non-overlapping occurrences
      of `sep`, scanning from the left; never an empty array. */
  function Split(s: string, sep: string): (parts: seq<string>)
    requires |sep| > 0
    ensures |parts| >= 1
    decreases |s|
  {
    match IndexOf(s, sep, 0)
    case None => [s]
    case Some(i) => [s[..i]] + Split(s[i + |sep|..], sep)
  }

  /** Joining the pieces of a split gives back the text, and no piece holds
      the separator: no character is lost or duplicated. */
  lemma {:induction false} SplitJoin(s: string, sep: string)
    requires |sep| > 0
    ensures Join(Split(s, sep), sep) == s
    ensures forall k :: 0 <= k < |Split(s, sep)| ==> !Contains(Split(s, sep)[k], sep)
    decreases |s|
  {
    IndexOfSpec(s, sep, 0);
    match IndexOf(s, sep, 0)
    case None =>
      assert Split(s, sep) == [s];
      assert forall j: nat :: !OccursAt(s, sep, j);
    case Some(i) =>
      var rest := s[i + |sep|..];
      var pr := Split(rest, sep);
      SplitCut(s, sep, i);
      SplitJoin(rest, sep);
      assert Join(Split(s, sep), sep) == s by {
        JoinCons(s[..i], pr, sep);
        assert s == s[..i] + sep + rest;
      }
      forall k | 0 <= k < |Split(s, sep)|
        ensures !Contains(Split(s, sep)[k], sep)
      {
        if k == 0 {
          NoOccurrenceBefore(s, sep, i);
        } else {
          assert Split(s, sep)[k] == pr[k - 1];
        }
      }
  }

  /** The first step of a split: the text before the leftmost occurrence, then
      the split of the rest. */
  lemma SplitCut(s: string, sep: string, i: nat)
    requires |sep| > 0
    requires IndexOf(s, sep, 0) == Some(i)
    ensures Split(s, sep) == [s[..i]] + Split(s[i + |sep|..], sep)
  {
  }

  lemma JoinCons(p: string, ps: seq<string>, sep: string)
    requires |ps| >= 1
    ensures Join([p] + ps, sep) == p + sep + Join(ps, sep)
  {
    assert ([p] + ps)[1..] == ps;
  }

  lemma SplitEmpty(sep: string)
    requires |sep| > 0
    ensures Split("", sep) == [""]
  {
  }

  /** A piece that ends at the first occurrence splits off alone, leaving an
      empty piece after the separator. */
  lemma SplitTerminated(part: string, sep: string)
    requires |sep| > 0
    requires IndexOf(part + sep, sep, 0) == Some(|part|)
    ensures Split(part + sep, sep) == [part, ""]
  {
    var text := part + sep;
    assert Split(text, sep) == [text[..|part|]] + Split(text[|part| + |sep|..], sep);
  }

  /** A prefix of `s` that ends before the first occurrence holds no occurrence. */
  lemma NoOccurrenceBefore(s: string, sep: string, i: nat)
    requires |sep| > 0 && i <= |s|
    requires forall j: nat :: j < i ==> !OccursAt(s, sep, j)
    ensures !Contains(s[..i], sep)
  {
    forall j: nat | OccursAt(s[..i], sep, j)
      ensures false
    {
      assert s[..i][j..j + |sep|] == s[j..j + |sep|];
      assert OccursAt(s, sep, j);
    }
  }

  /** The leftmost occurrence is the one `IndexOf` finds. */
  lemma IndexOfLeftmost(s: string, sep: string, i: nat)
    requires |sep| > 0
    requires OccursAt(s, sep, i)
    requires forall j: nat :: j < i ==> !OccursAt(s, sep, j)
    ensures IndexOf(s, sep, 0) == Some(i)
  {
    IndexOfSpec(s, sep, 0);
  }

  /** Text appended after the first occurrence does not move it. */
  lemma IndexOfExtend(s: string, t: string, sep: string)
    requires |sep| > 0
    requires IndexOf(s, sep, 0).Some?
    ensures IndexOf(s + t, sep, 0) == IndexOf(s, sep, 0)
  {
    IndexOfSpec(s, sep, 0);
    var i := IndexOf(s, sep, 0).value;
    assert (s + t)[i..i + |sep|] == s[i..i + |sep|];
    forall j: nat | j < i
      ensures !OccursAt(s + t, sep, j)
    {
      assert (s + t)[j..j + |sep|] == s[j..j + |sep|];
      assert !OccursAt(s, sep, j);
    }
    IndexOfLeftmost(s + t, sep, i);
  }

  /** Splitting `s + t` splits `s` as before, except that its last,
      unterminated piece is split again together with `t`. This is what lets a
      carried-over buffer reproduce a one-shot split. */
  lemma {:induction false} SplitAppend(s: string, t: string, sep: string)
    requires |sep| > 0
    ensures Split(s + t, sep) == Init(Split(s, sep)) + Split(Last(Split(s, sep)) + t, sep)
    decreases |s|
  {
    match IndexOf(s, sep, 0)
    case None =>
      SplitAppendOpen(s, t, sep);
    case Some(i) =>
      var rest := s[i + |sep|..];
      SplitAppendCut(s, t, sep, i);
      SplitAppend(rest, t, sep);
      SplitAppendCombine(s[..i], Split(rest, sep), Split(rest + t, sep), Split(Last(Split(rest, sep)) + t, sep));
  }

  lemma SplitAppendOpen(s: string, t: string, sep: string)
    requires |sep| > 0
    requires IndexOf(s, sep, 0).None?
    ensures Split(s + t, sep) == Init(Split(s, sep)) + Split(Last(Split(s, sep)) + t, sep)
  {
    assert Split(s, sep) == [s];
  }

  /** Both `s` and `s + t` split first at the leftmost occurrence in `s`. */
  lemma SplitAppendCut(s: string, t: string, sep: string, i: nat)
    requires |sep| > 0
    requires IndexOf(s, sep, 0) == Some(i)
    ensures Split(s, sep) == [s[..i]] + Split(s[i + |sep|..], sep)
    ensures Split(s + t, sep) == [s[..i]] + Split(s[i + |sep|..] + t, sep)
  {
    SplitCut(s, sep, i);
    IndexOfExtend(s, t, sep);
    SplitCut(s + t, sep, i);
    assert (s + t)[i + |sep|..] == s[i + |sep|..] + t;
    assert (s + t)[..i] == s[..i];
  }

  lemma SplitAppendCombine(head: string, pr: seq<string>, prt: seq<string>, lastt: seq<string>)
    requires |pr| >= 1
    requires prt == Init(pr) + lastt
    ensures [head] + prt == Init([head] + pr) + lastt
    ensures Last([head] + pr) == Last(pr)
  {
    assert Init([head] + pr) == [head] + Init(pr);
  }

  /** A piece followed by the separator is found again at the same place:
      every piece but the last ended at the leftmost occurrence. */
  lemma {:induction false} SplitPieceTerminated(s: string, sep: string, k: nat)
    requires |sep| > 0
    requires k < |Split(s, sep)| - 1
    ensures IndexOf(Split(s, sep)[k] + sep, sep, 0) == Some(|Split(s, sep)[k]|)
    decreases |s|
  {
    IndexOfSpec(s, sep, 0);
    match IndexOf(s, sep, 0)
    case None =>
    case Some(i) =>
      if k == 0 {
        var p := s[..i] + sep;
        assert p == s[..i + |sep|];
        assert OccursAt(p, sep, i);
        forall j: nat | j < i
          ensures !OccursAt(p, sep, j)
        {
          assert p[j..j + |sep|] == s[j..j + |sep|];
          assert !OccursAt(s, sep, j);
        }
        IndexOfLeftmost(p, sep, i);
      } else {
        SplitPieceTerminated(s[i + |sep|..], sep, k - 1);
      }
  }

  /** Joining the pieces equals the complete frames followed by the last piece. */
  lemma {:induction false} JoinIsFrames(parts: seq<string>)
    requires |parts| >= 1
    ensures Join(parts, Sep) == Frames(Init(parts)) + Last(parts)
    decreases |parts|
  {
    if |parts| > 1 {
      JoinIsFrames(parts[1..]);
      FramesCons(parts[0], Init(parts[1..]));
      assert [parts[0]] + Init(parts[1..]) == Init(parts);
    }
  }

  lemma {:induction false} FramesCons(p: string, ps: seq<string>)
    ensures Frames([p] + ps) == p + Sep + Frames(ps)
    decreases |ps|
  {
    if ps == [] {
      assert [p] + ps == [p];
      assert Frames([p]) == Frames([]) + p + Sep;
    } else {
      assert ([p] + ps)[..|ps|] == [p] + Init(ps);
      FramesCons(p, Init(ps));
    }
  }

  /** A whole split, as text: the complete frames re-terminated with `Sep`,
      then the unterminated rest, give back the input. */
  lemma SplitIsFramesThenRest(s: string)
    ensures Frames(Init(Split(s, Sep))) + Last(Split(s, Sep)) == s
  {
    SplitJoin(s, Sep);
    JoinIsFrames(Split(s, Sep));
  }

  /** The concatenation of a list of chunks. */
  function Concat(chunks: seq<string>): string
  {
    if chunks == [] then "" else chunks[0] + Concat(chunks[1..])
  }
}
