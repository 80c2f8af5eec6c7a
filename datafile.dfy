/** The data file and the credential lines in it (main.js:182-185 and 190).

    The file's text becomes a list of credential lines: carriage returns are
    dropped, the text is cut at every line feed, and empty lines are dropped.
    From each line the bot takes the text that follows the first `user=`, up to
    the next `&` or the next `user=`, whichever comes first. */
module DataFile {
  import opened Wrappers

  // ---------------------------------------------------------------------------
  // Carriage-return removal: `replace(/\r/g, '')`
  // ---------------------------------------------------------------------------

  /** `s` with every carriage return removed. */
  function RemoveCR(s: string): (r: string)
    ensures '\r' !in r
    ensures forall c :: c in r ==> c in s
  {
    if s == [] then []
    else (if s[0] == '\r' then [] else [s[0]]) + RemoveCR(s[1..])
  }

  lemma {:induction false} RemoveCRConcat(a: string, b: string)
    ensures RemoveCR(a + b) == RemoveCR(a) + RemoveCR(b)
  {
    if a == [] {
      assert a + b == b;
    } else {
      assert (a + b)[0] == a[0];
      assert (a + b)[1..] == a[1..] + b;
      RemoveCRConcat(a[1..], b);
    }
  }

  /** Text without carriage returns is left as it is. */
  lemma {:induction false} RemoveCRKeeps(s: string)
    requires '\r' !in s
    ensures RemoveCR(s) == s
  {
    if s != [] {
      assert s[0] in s;
      assert forall c :: c in s[1..] ==> c in s;
      RemoveCRKeeps(s[1..]);
      assert [s[0]] + s[1..] == s;
    }
  }

  // ---------------------------------------------------------------------------
  // Line splitting: `split('\n')` and its inverse
  // ---------------------------------------------------------------------------

  /** The pieces of `s` between occurrences of `sep`, as JavaScript's
      `String.prototype.split` with a one-character separator gives them:
      never an empty list, since the empty text splits into one empty piece. */
  function Split(s: string, sep: char): (r: seq<string>)
    ensures |r| >= 1
    ensures forall p :: p in r ==> sep !in p
    ensures forall p, c :: p in r && c in p ==> c in s
  {
    if s == [] then [[]]
    else
      var rest := Split(s[1..], sep);
      assert forall c :: c in s[1..] ==> c in s;
      if s[0] == sep then [[]] + rest
      else [[s[0]] + rest[0]] + rest[1..]
  }

  /** The pieces of `ls` with `sep` between each two of them. */
  function Join(ls: seq<string>, sep: string): string
  {
    if |ls| == 0 then []
    else if |ls| == 1 then ls[0]
    else ls[0] + sep + Join(ls[1..], sep)
  }

  lemma {:induction false} JoinConsHead(c: char, ls: seq<string>, sep: string)
    requires |ls| >= 1
    ensures Join([[c] + ls[0]] + ls[1..], sep) == [c] + Join(ls, sep)
  {
    var l := [[c] + ls[0]] + ls[1..];
    assert l[0] == [c] + ls[0];
    if |ls| > 1 {
      assert l[1..] == ls[1..];
    }
  }

  /** Joining the pieces again with the separator gives back the text. */
  lemma {:induction false} JoinSplit(s: string, sep: char)
    ensures Join(Split(s, sep), [sep]) == s
  {
    if s != [] {
      var rest := Split(s[1..], sep);
      JoinSplit(s[1..], sep);
      if s[0] == sep {
        var l := [[]] + rest;
        assert l[0] == [] && l[1..] == rest;
        assert Join(l, [sep]) == [] + [sep] + Join(rest, [sep]);
        assert [sep] + s[1..] == s;
      } else {
        JoinConsHead(s[0], rest, [sep]);
        assert [s[0]] + s[1..] == s;
      }
    }
  }

  lemma {:induction false} SplitNoSep(p: string, sep: char)
    requires sep !in p
    ensures Split(p, sep) == [p]
  {
    if p != [] {
      assert p[0] in p;
      assert forall c :: c in p[1..] ==> c in p;
      SplitNoSep(p[1..], sep);
      assert [p[0]] + p[1..] == p;
    }
  }

  lemma {:induction false} SplitAfterPiece(p: string, sep: char, rest: string)
    requires sep !in p
    ensures Split(p + [sep] + rest, sep) == [p] + Split(rest, sep)
  {
    var s := p + [sep] + rest;
    if p == [] {
      assert s[0] == sep && s[1..] == rest;
    } else {
      assert s[0] == p[0] && p[0] in p;
      assert forall c :: c in p[1..] ==> c in p;
      assert s[1..] == p[1..] + [sep] + rest;
      SplitAfterPiece(p[1..], sep, rest);
      assert [p[0]] + p[1..] == p;
    }
  }

  /** Splitting text made of separator-free pieces gives back exactly those pieces. */
  lemma {:induction false} SplitJoin(ls: seq<string>, sep: char)
    requires |ls| >= 1
    requires forall i :: 0 <= i < |ls| ==> sep !in ls[i]
    ensures Split(Join(ls, [sep]), sep) == ls
  {
    if |ls| == 1 {
      SplitNoSep(ls[0], sep);
    } else {
      SplitJoin(ls[1..], sep);
      SplitAfterPiece(ls[0], sep, Join(ls[1..], [sep]));
      assert [ls[0]] + ls[1..] == ls;
    }
  }

  // ---------------------------------------------------------------------------
  // Dropping empty lines: `filter(Boolean)`
  // ---------------------------------------------------------------------------

  /** The non-empty strings of `ls`, in their order. */
  function NonEmpty(ls: seq<string>): (r: seq<string>)
    ensures forall i :: 0 <= i < |r| ==> r[i] != []
    ensures forall x :: x in r ==> x in ls
    ensures forall x :: x in ls && x != [] ==> x in r
  {
    if ls == [] then []
    else (if ls[0] == [] then [] else [ls[0]]) + NonEmpty(ls[1..])
  }

  /** Dropping empty lines distributes over concatenation, so the kept lines
      stay in their order and each is kept as often as it occurs. */
  lemma {:induction false} NonEmptyConcat(a: seq<string>, b: seq<string>)
    ensures NonEmpty(a + b) == NonEmpty(a) + NonEmpty(b)
  {
    if a == [] {
      assert a + b == b;
    } else {
      assert (a + b)[0] == a[0];
      assert (a + b)[1..] == a[1..] + b;
      NonEmptyConcat(a[1..], b);
    }
  }

  lemma {:induction false} NonEmptyKeeps(ls: seq<string>)
    requires forall i :: 0 <= i < |ls| ==> ls[i] != []
    ensures NonEmpty(ls) == ls
  {
    if ls != [] {
      NonEmptyKeeps(ls[1..]);
      assert [ls[0]] + ls[1..] == ls;
    }
  }

  // ---------------------------------------------------------------------------
  // The data file
  // ---------------------------------------------------------------------------

  /** The credential lines of the data file's text (main.js:182-185). */
  function Normalise(raw: string): (lines: seq<string>)
    ensures forall i :: 0 <= i < |lines| ==>
              lines[i] != [] && '\r' !in lines[i] && '\n' !in lines[i]
  {
    NonEmpty(Split(RemoveCR(raw), '\n'))
  }

  /** A line that contains no line break of either kind. */
  predicate IsBareLine(l: string)
  {
    '\r' !in l && '\n' !in l
  }

  lemma {:induction false} JoinNoCR(ls: seq<string>, sep: string)
    requires '\r' !in sep
    requires forall i :: 0 <= i < |ls| ==> '\r' !in ls[i]
    ensures '\r' !in Join(ls, sep)
  {
    if |ls| > 1 {
      JoinNoCR(ls[1..], sep);
    }
  }

  /** A file written as the lines `ls`, one per line feed, normalises to the
      non-empty lines of `ls` in their original order. */
  lemma {:induction false} NormaliseLines(ls: seq<string>)
    requires forall i :: 0 <= i < |ls| ==> IsBareLine(ls[i])
    ensures Normalise(Join(ls, "\n")) == NonEmpty(ls)
  {
    if |ls| == 0 {
      assert Split([], '\n') == [[]];
      assert NonEmpty([[]]) == [];
    } else {
      JoinNoCR(ls, "\n");
      RemoveCRKeeps(Join(ls, "\n"));
      SplitJoin(ls, '\n');
    }
  }

  lemma {:induction false} RemoveCRFromCRLF(ls: seq<string>)
    requires forall i :: 0 <= i < |ls| ==> IsBareLine(ls[i])
    ensures RemoveCR(Join(ls, "\r\n")) == Join(ls, "\n")
  {
    if |ls| == 1 {
      RemoveCRKeeps(ls[0]);
    } else if |ls| > 1 {
      RemoveCRFromCRLF(ls[1..]);
      RemoveCRConcat(ls[0] + "\r\n", Join(ls[1..], "\r\n"));
      RemoveCRConcat(ls[0], "\r\n");
      RemoveCRKeeps(ls[0]);
      assert RemoveCR("\r\n") == "\n";
    }
  }

  /** Windows line endings give the same credential lines as Unix ones. */
  lemma {:induction false} NormaliseCRLF(ls: seq<string>)
    requires forall i :: 0 <= i < |ls| ==> IsBareLine(ls[i])
    ensures Normalise(Join(ls, "\r\n")) == NonEmpty(ls)
  {
    var unix := Join(ls, "\n");
    RemoveCRFromCRLF(ls);
    assert Normalise(Join(ls, "\r\n")) == NonEmpty(Split(unix, '\n'));
    JoinNoCR(ls, "\n");
    RemoveCRKeeps(unix);
    assert Normalise(unix) == NonEmpty(Split(unix, '\n'));
    NormaliseLines(ls);
  }

  /** Writing the credential lines back to a file and reading it again gives the same lines. */
  lemma {:induction false} NormaliseIdempotent(raw: string)
    ensures Normalise(Join(Normalise(raw), "\n")) == Normalise(raw)
  {
    var lines := Normalise(raw);
    NormaliseLines(lines);
    NonEmptyKeeps(lines);
  }

  // ---------------------------------------------------------------------------
  // The `user=` segment: `initData.split('user=')[1].split('&')[0]`
  // ---------------------------------------------------------------------------

  /** `pat` occurs in `s` starting at index `i`. */
  predicate OccursAt(s: string, pat: string, i: int)
  {
    0 <= i && i + |pat| <= |s| && s[i..i + |pat|] == pat
  }

  /** The first index at or after `from` where `pat` occurs in `s`, if any. */
  function IndexOf(s: string, pat: string, from: nat): (r: Option<nat>)
    decreases |s| - from
    ensures r.Some? ==> from <= r.value && OccursAt(s, pat, r.value)
    ensures r.Some? ==> forall j :: from <= j < r.value ==> !OccursAt(s, pat, j)
    ensures r.None? ==> forall j :: from <= j ==> !OccursAt(s, pat, j)
  {
    if from + |pat| > |s| then None
    else if s[from..from + |pat|] == pat then Some(from)
    else IndexOf(s, pat, from + 1)
  }

  /** The text before the first occurrence of `pat`, or all of `s`:
      element 0 of JavaScript's `s.split(pat)`. */
  function Before(s: string, pat: string): (r: string)
    ensures |r| <= |s| && r == s[..|r|]
    ensures forall j :: 0 <= j < |r| ==> !OccursAt(s, pat, j)
    ensures |r| == |s| || OccursAt(s, pat, |r|)
  {
    match IndexOf(s, pat, 0)
    case None => s
    case Some(j) => s[..j]
  }

  const UserKey: string := "user="

  /** The URL-encoded user descriptor in a credential line, or None when the
      line has no `user=` (where the source reads element 1 of a one-element
      split and fails). */
  function UserSegment(line: string): (r: Option<string>)
    ensures r.None? <==> forall j :: !OccursAt(line, UserKey, j)
    ensures r.Some? ==> '&' !in r.value
  {
    match IndexOf(line, UserKey, 0)
    case None => None
    case Some(i) =>
      var p := Before(line[i + |UserKey|..], UserKey);
      var seg := Before(p, "&");
      assert '&' !in seg by {
        forall j | 0 <= j < |seg| ensures seg[j] != '&' {
          AmpersandAt(p, j);
        }
      }
      Some(seg)
  }

  /** `seg` is the longest prefix of `rest` that holds no `&` and at which no
      `user=` starts: it ends at the end of `rest`, at an `&`, or where a
      `user=` starts, whichever comes first. */
  predicate CutAtDelimiter(rest: string, seg: string)
  {
    && |seg| <= |rest|
    && seg == rest[..|seg|]
    && (forall j :: 0 <= j < |seg| ==> rest[j] != '&' && !OccursAt(rest, UserKey, j))
    && (|seg| == |rest| || rest[|seg|] == '&' || OccursAt(rest, UserKey, |seg|))
  }

  lemma {:induction false} AmpersandAt(p: string, j: int)
    requires 0 <= j < |p|
    ensures OccursAt(p, "&", j) <==> p[j] == '&'
  {
    if p[j] == '&' {
      assert p[j..j + 1] == "&";
    }
    if OccursAt(p, "&", j) {
      assert p[j..j + 1][0] == p[j];
    }
  }

  lemma {:induction false} OccursInPrefix(rest: string, seg: string, p: string, j: int)
    requires |seg| <= |p| <= |rest| && p == rest[..|p|] && seg == p[..|seg|]
    requires 0 <= j < |seg|
    ensures p[j] == rest[j] && seg[j] == rest[j]
  {
  }

  /** Element 0 of splitting at `user=` and then at `&` is the cut of CutAtDelimiter. */
  lemma {:induction false} BeforeCuts(rest: string)
    ensures CutAtDelimiter(rest, Before(Before(rest, UserKey), "&"))
  {
    var p := Before(rest, UserKey);
    var seg := Before(p, "&");
    assert |p| <= |rest| && p == rest[..|p|];
    assert |seg| <= |p| && seg == p[..|seg|];
    assert forall j :: 0 <= j < |p| ==> !OccursAt(rest, UserKey, j);
    assert forall j :: 0 <= j < |seg| ==> !OccursAt(p, "&", j);
    forall j | 0 <= j < |seg|
      ensures rest[j] != '&' && !OccursAt(rest, UserKey, j)
    {
      AmpersandAt(p, j);
      OccursInPrefix(rest, seg, p, j);
    }
    if |seg| < |p| {
      assert OccursAt(p, "&", |seg|);
      AmpersandAt(p, |seg|);
      assert rest[|seg|] == p[|seg|];
    } else if |p| < |rest| {
      assert IndexOf(rest, UserKey, 0).Some?;
      assert OccursAt(rest, UserKey, |p|);
    }
  }

  /** What the credential extraction at main.js:190 yields, in both directions:
      no `user=` anywhere means failure; otherwise the segment is the text after
      the first `user=`, cut at the next `&` or `user=`. */
  lemma {:induction false} UserSegmentSpec(line: string)
    ensures UserSegment(line).None? <==> forall j :: !OccursAt(line, UserKey, j)
    ensures UserSegment(line).Some? ==>
              exists i :: && OccursAt(line, UserKey, i)
                          && (forall j :: 0 <= j < i ==> !OccursAt(line, UserKey, j))
                          && CutAtDelimiter(line[i + |UserKey|..], UserSegment(line).value)
  {
    match IndexOf(line, UserKey, 0)
    case None =>
      assert forall j :: !OccursAt(line, UserKey, j) by {
        forall j ensures !OccursAt(line, UserKey, j) {
          if j >= 0 {
            assert 0 <= j;
          }
        }
      }
    case Some(i) =>
      assert OccursAt(line, UserKey, i);
      BeforeCuts(line[i + |UserKey|..]);
  }

  /** The cut of CutAtDelimiter is unique. */
  lemma {:induction false} CutUnique(rest: string, a: string, b: string)
    requires CutAtDelimiter(rest, a) && CutAtDelimiter(rest, b)
    ensures a == b
  {
    assert !(|a| < |b|) by {
      if |a| < |b| {
        assert false;
      }
    }
    assert !(|b| < |a|) by {
      if |b| < |a| {
        assert false;
      }
    }
  }

  /** The segment of a line whose first `user=` ends its prefix is cut from
      what follows that `user=`. */
  lemma {:induction false} SegmentAfterFirstKey(prefix: string, rest: string)
    requires forall j :: 0 <= j < |prefix| ==> !OccursAt(prefix + UserKey + rest, UserKey, j)
    ensures UserSegment(prefix + UserKey + rest) == Some(Before(Before(rest, UserKey), "&"))
  {
    var line := prefix + UserKey + rest;
    assert line[|prefix|..|prefix| + |UserKey|] == UserKey;
    assert OccursAt(line, UserKey, |prefix|);
    var r := IndexOf(line, UserKey, 0);
    assert OccursAt(line, UserKey, r.value);
    assert r.value == |prefix|;
    assert line[|prefix| + |UserKey|..] == rest;
  }

  /** A descriptor free of `&` and `user=` followed by a delimiter is the cut. */
  lemma {:induction false} DelimitedCut(seg: string, suffix: string)
    requires forall j :: 0 <= j < |seg| ==> seg[j] != '&' && !OccursAt(seg + suffix, UserKey, j)
    requires suffix == [] || suffix[0] == '&' || OccursAt(suffix, UserKey, 0)
    ensures CutAtDelimiter(seg + suffix, seg)
  {
    var rest := seg + suffix;
    assert rest[..|seg|] == seg;
    if suffix != [] {
      assert rest[|seg|] == suffix[0];
      if OccursAt(suffix, UserKey, 0) {
        assert rest[|seg|..|seg| + |UserKey|] == suffix[..|UserKey|];
      }
    }
  }

  /** A line made of a prefix holding no `user=`, then `user=`, the descriptor
      and a delimiter (an `&`, another `user=` or the end of the line) yields
      exactly that descriptor. */
  lemma {:induction false} UserSegmentOfLine(prefix: string, seg: string, suffix: string)
    requires forall j :: 0 <= j < |prefix| ==> !OccursAt(prefix + UserKey + (seg + suffix), UserKey, j)
    requires forall j :: 0 <= j < |seg| ==> seg[j] != '&' && !OccursAt(seg + suffix, UserKey, j)
    requires suffix == [] || suffix[0] == '&' || OccursAt(suffix, UserKey, 0)
    ensures UserSegment(prefix + UserKey + (seg + suffix)) == Some(seg)
  {
    var rest := seg + suffix;
    SegmentAfterFirstKey(prefix, rest);
    BeforeCuts(rest);
    DelimitedCut(seg, suffix);
    CutUnique(rest, Before(Before(rest, UserKey), "&"), seg);
  }
}
