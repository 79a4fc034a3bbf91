/** The table parser of src/performance_calculator.rs: `parse_results` reads
    the external calculator's text output line by line, takes the user line
    and the two total lines after it, skips four decoration lines, and reads a
    score row from every second line after that. Rust's lazy iterator
    pipeline becomes functions over sequences of strings. */
module PerformanceCalculator {
  import opened Wrappers

  datatype Score = Score(
    songName: string,
    livePp: string,
    localPp: string,
    ppChange: string,
    positionChange: string)

  datatype PerformanceResults = PerformanceResults(
    user: string,
    totalLivePp: string,
    totalLocalPp: string,
    scores: seq<Score>)

  /** The separator literal as it is stored: two U+FFFD replacement
      characters (the original box-drawing characters did not survive
      encoding), then U+2551 BOX DRAWINGS DOUBLE VERTICAL, U+2502 BOX DRAWINGS
      LIGHT VERTICAL and U+2551 again. */
  const Separators: string := "\U{FFFD}\U{FFFD}\U{2551}\U{2502}\U{2551}"

  /** `str::contains(char)` on the literal: membership in its three distinct
      characters, none of which is a newline or ASCII. */
  function IsSeparator(c: char): (b: bool)
    ensures b <==> c in {'\U{FFFD}', '\U{2551}', '\U{2502}'}
    ensures b ==> c != '\n' && c as int > 0x7F
  {
    c in Separators
  }

  function IsNewline(c: char): bool {
    c == '\n'
  }

  /** Rust's `char::is_whitespace`: the Unicode White_Space property. */
  predicate IsWhitespace(c: char) {
    || '\t' <= c <= '\r' || c == ' ' || c == '\U{85}' || c == '\U{A0}' || c == '\U{1680}'
    || '\U{2000}' <= c <= '\U{200A}' || c == '\U{2028}' || c == '\U{2029}'
    || c == '\U{202F}' || c == '\U{205F}' || c == '\U{3000}'
  }

  // ---------------------------------------------------------------------------
  // Splitting

  /** The number of characters of `s` that `isSep` accepts. */
  function CountWhere(s: string, isSep: char -> bool): nat {
    if s == [] then 0 else (if isSep(s[0]) then 1 else 0) + CountWhere(s[1..], isSep)
  }

  /** `str::split` with a character predicate: the pieces between separators,
      one more than there are separators, none containing a separator
      (empty pieces included). */
  function Split(s: string, isSep: char -> bool): (pieces: seq<string>)
    ensures |pieces| == CountWhere(s, isSep) + 1
    ensures forall i, j :: 0 <= i < |pieces| && 0 <= j < |pieces[i]| ==> !isSep(pieces[i][j])
  {
    if s == [] then [""]
    else
      var rest := Split(s[1..], isSep);
      if isSep(s[0]) then [""] + rest
      else [[s[0]] + rest[0]] + rest[1..]
  }

  /** The pieces glued back together with `sep` between consecutive ones. */
  function Join(pieces: seq<string>, sep: char): string
    requires pieces != []
  {
    if |pieces| == 1 then pieces[0] else pieces[0] + [sep] + Join(pieces[1..], sep)
  }

  /** The separator characters of `s`, in the order they occur. */
  function SepsOf(s: string, isSep: char -> bool): (r: string)
    ensures |r| == CountWhere(s, isSep)
    ensures forall i :: 0 <= i < |r| ==> isSep(r[i])
  {
    if s == [] then [] else (if isSep(s[0]) then [s[0]] else []) + SepsOf(s[1..], isSep)
  }

  /** The pieces glued back together, the i-th separator between the i-th and
      the next piece. */
  function Interleave(pieces: seq<string>, seps: string): string
    requires |pieces| == |seps| + 1
  {
    if seps == [] then pieces[0] else pieces[0] + [seps[0]] + Interleave(pieces[1..], seps[1..])
  }

  /** Splitting on separators loses nothing: putting each separator back
      between the pieces around it gives the text back. */
  lemma {:induction false} SplitJoin(s: string, isSep: char -> bool)
    ensures Interleave(Split(s, isSep), SepsOf(s, isSep)) == s
  {
    if s != [] {
      var rest := Split(s[1..], isSep);
      var seps := SepsOf(s[1..], isSep);
      SplitJoin(s[1..], isSep);
      assert s == [s[0]] + s[1..];
      if isSep(s[0]) {
        assert Split(s, isSep) == [""] + rest;
        assert SepsOf(s, isSep) == [s[0]] + seps;
      } else {
        assert Split(s, isSep) == [[s[0]] + rest[0]] + rest[1..];
        assert SepsOf(s, isSep) == seps;
        if seps != [] {
          assert Interleave(rest, seps) == rest[0] + [seps[0]] + Interleave(rest[1..], seps[1..]);
        }
      }
    }
  }

  /** `raw.split("\n")`. */
  function Lines(raw: string): seq<string> {
    Split(raw, IsNewline)
  }

  /** Splitting into lines loses nothing: joining the lines with newlines
      gives the text back. */
  lemma {:induction false} LinesJoin(raw: string)
    ensures Join(Lines(raw), '\n') == raw
  {
    if raw != [] {
      var rest := Lines(raw[1..]);
      LinesJoin(raw[1..]);
      if raw[0] == '\n' {
        assert Lines(raw) == [""] + rest;
        assert raw == [raw[0]] + raw[1..];
      } else {
        assert Lines(raw) == [[raw[0]] + rest[0]] + rest[1..];
        if |rest| == 1 {
          assert raw == [raw[0]] + rest[0];
        } else {
          assert Join(rest, '\n') == rest[0] + ['\n'] + Join(rest[1..], '\n');
          assert raw == [raw[0]] + raw[1..];
        }
      }
    }
  }

  /** And the other way round: newline-free pieces joined with newlines split
      back into the same pieces. */
  lemma {:induction false} JoinLines(pieces: seq<string>)
    requires pieces != []
    requires forall i, j :: 0 <= i < |pieces| && 0 <= j < |pieces[i]| ==> pieces[i][j] != '\n'
    ensures Lines(Join(pieces, '\n')) == pieces
  {
    if |pieces| == 1 {
      LineWithoutNewline(pieces[0]);
    } else {
      JoinLines(pieces[1..]);
      LinePrefix(pieces[0], Join(pieces[1..], '\n'));
      assert Join(pieces, '\n') == pieces[0] + (['\n'] + Join(pieces[1..], '\n'));
    }
  }

  lemma {:induction false} LineWithoutNewline(l: string)
    requires forall j :: 0 <= j < |l| ==> l[j] != '\n'
    ensures Lines(l) == [l]
  {
    if l != [] {
      LineWithoutNewline(l[1..]);
      assert l == [l[0]] + l[1..];
    }
  }

  /** A newline-free line followed by a newline and more text splits into that
      line followed by the lines of the rest. */
  lemma {:induction false} LinePrefix(l: string, tail: string)
    requires forall j :: 0 <= j < |l| ==> l[j] != '\n'
    ensures Lines(l + ['\n'] + tail) == [l] + Lines(tail)
  {
    if l == [] {
      assert l + ['\n'] + tail == ['\n'] + tail;
      assert (['\n'] + tail)[1..] == tail;
    } else {
      LinePrefix(l[1..], tail);
      assert (l + ['\n'] + tail)[1..] == l[1..] + ['\n'] + tail;
      assert l == [l[0]] + l[1..];
    }
  }

  /** Keeps the non-empty pieces, in order (`.filter(|s| !s.is_empty())`). */
  function NonEmpty(pieces: seq<string>): (r: seq<string>)
    ensures |r| <= |pieces|
    ensures forall x :: x in r <==> x in pieces && x != []
  {
    if pieces == [] then []
    else if pieces[0] == [] then NonEmpty(pieces[1..])
    else [pieces[0]] + NonEmpty(pieces[1..])
  }

  /** Filtering concatenated pieces filters each stretch: the kept pieces
      stay in their order, repeats included. */
  lemma {:induction false} NonEmptyAppend(a: seq<string>, b: seq<string>)
    ensures NonEmpty(a + b) == NonEmpty(a) + NonEmpty(b)
  {
    if a != [] {
      assert (a + b)[0] == a[0] && (a + b)[1..] == a[1..] + b;
      NonEmptyAppend(a[1..], b);
    } else {
      assert a + b == b;
    }
  }

  /** A single piece is kept exactly when it is not empty. */
  lemma NonEmptyOne(p: string)
    ensures NonEmpty([p]) == if p == [] then [] else [p]
  {
  }

  // ---------------------------------------------------------------------------
  // Trimming

  /** `str::trim_start`: drops the leading whitespace. */
  function TrimStart(s: string): (r: string)
    ensures |r| <= |s| && r == s[|s| - |r|..]
    ensures forall i :: 0 <= i < |s| - |r| ==> IsWhitespace(s[i])
    ensures r != [] ==> !IsWhitespace(r[0])
  {
    if s != [] && IsWhitespace(s[0]) then TrimStart(s[1..]) else s
  }

  /** `str::trim_end`: drops the trailing whitespace. */
  function TrimEnd(s: string): (r: string)
    ensures |r| <= |s| && r == s[..|r|]
    ensures forall i :: |r| <= i < |s| ==> IsWhitespace(s[i])
    ensures r != [] ==> !IsWhitespace(r[|r| - 1])
  {
    if s != [] && IsWhitespace(s[|s| - 1]) then TrimEnd(s[..|s| - 1]) else s
  }

  /** `str::trim`. */
  function Trim(s: string): string {
    TrimEnd(TrimStart(s))
  }

  /** `r` is the slice of `s` starting at `a`, with only whitespace around it. */
  ghost predicate TrimmedAt(s: string, r: string, a: nat) {
    && a + |r| <= |s| && s[a..a + |r|] == r
    && (forall i :: 0 <= i < a ==> IsWhitespace(s[i]))
    && (forall i :: a + |r| <= i < |s| ==> IsWhitespace(s[i]))
  }

  /** Trimming leaves the slice of `s` obtained by removing all leading and
      trailing whitespace: it neither starts nor ends with whitespace. */
  lemma TrimIsSlice(s: string)
    ensures var r := Trim(s);
      && (r != [] ==> !IsWhitespace(r[0]) && !IsWhitespace(r[|r| - 1]))
      && TrimmedAt(s, r, |s| - |TrimStart(s)|)
  {
    var t := TrimStart(s);
    TrimmedTwice(s, t, TrimEnd(t));
  }

  /** Dropping a whitespace prefix from `s` to get `t`, then a whitespace
      suffix from `t` to get `r`, leaves `r` as a slice of `s` surrounded by
      whitespace. */
  lemma TrimmedTwice(s: string, t: string, r: string)
    requires |t| <= |s| && t == s[|s| - |t|..]
    requires forall i :: 0 <= i < |s| - |t| ==> IsWhitespace(s[i])
    requires |r| <= |t| && r == t[..|r|]
    requires forall i :: |r| <= i < |t| ==> IsWhitespace(t[i])
    ensures TrimmedAt(s, r, |s| - |t|)
  {
    var a := |s| - |t|;
    assert s[a..a + |r|] == t[..|r|];
    forall i | a + |r| <= i < |s| ensures IsWhitespace(s[i]) {
      assert s[i] == t[i - a];
    }
  }

  /** Trimming a second time changes nothing. */
  lemma TrimIdempotent(s: string)
    ensures Trim(Trim(s)) == Trim(s)
  {
    TrimIsSlice(s);
    var r := Trim(s);
    if r != [] {
      assert TrimStart(r) == r;
      assert TrimEnd(r) == r;
    }
  }

  // ---------------------------------------------------------------------------
  // Rows

  /** The separator-delimited fields of a row that are not empty (before
      trimming, so a field of spaces is kept). */
  function Fields(line: string): seq<string> {
    NonEmpty(Split(line, IsSeparator))
  }

  /** One table row: a score from its first five fields, trimmed, or None
      when it has fewer than five. */
  function ParseRow(line: string): (r: Option<Score>)
    ensures r.Some? <==> |Fields(line)| >= 5
    ensures r.Some? ==> var f := Fields(line);
      r.value == Score(Trim(f[0]), Trim(f[1]), Trim(f[2]), Trim(f[3]), Trim(f[4]))
  {
    var fields := Fields(line);
    if |fields| < 5 then None
    else Some(Score(Trim(fields[0]), Trim(fields[1]), Trim(fields[2]), Trim(fields[3]), Trim(fields[4])))
  }

  /** `.step_by(2)`: the elements at even offsets. */
  function StepBy2<T>(s: seq<T>): (r: seq<T>)
    ensures |r| == (|s| + 1) / 2
    ensures forall i :: 0 <= i < |r| ==> r[i] == s[2 * i]
  {
    if |s| <= 1 then s
    else [s[0]] + StepBy2(s[2..])
  }

  /** `.filter_map(f)`: what `f` returns for each element, in order,
      skipping the Nones. */
  function FilterMap<A, B>(xs: seq<A>, f: A -> Option<B>): (r: seq<B>)
    ensures |r| <= |xs|
  {
    if xs == [] then []
    else
      match f(xs[0])
      case Some(y) => [y] + FilterMap(xs[1..], f)
      case None => FilterMap(xs[1..], f)
  }

  /** The scores of the rows that parse, in order. */
  function Scores(rows: seq<string>): (r: seq<Score>)
    ensures |r| <= |rows|
  {
    FilterMap(rows, ParseRow)
  }

  /** The candidate rows: every second line from the start of the table body,
      empty ones dropped. */
  function Candidates(body: seq<string>): seq<string> {
    NonEmpty(StepBy2(body))
  }

  /** The candidates in order: the first line of the body (when not empty)
      comes before the candidates of the body after its first two lines. */
  lemma CandidatesCons(a: string, b: string, rest: seq<string>)
    ensures Candidates([a, b] + rest) == NonEmpty([a]) + Candidates(rest)
  {
    var body := [a, b] + rest;
    assert body[2..] == rest;
    assert StepBy2(body) == [a] + StepBy2(rest);
    NonEmptyAppend([a], StepBy2(rest));
  }

  // ---------------------------------------------------------------------------
  // parse_results

  predicate StartsWithUser(line: string) {
    |line| >= 6 && line[..6] == "User: "
  }

  /** `.skip_while(|l| !l.starts_with("User: "))`. */
  function SkipToUser(lines: seq<string>): (r: seq<string>)
    ensures |r| <= |lines| && r == lines[|lines| - |r|..]
    ensures r != [] ==> StartsWithUser(r[0])
    ensures forall i :: 0 <= i < |lines| - |r| ==> !StartsWithUser(lines[i])
  {
    if lines == [] || StartsWithUser(lines[0]) then lines
    else
      var r := SkipToUser(lines[1..]);
      assert forall i :: 1 <= i < |lines| - |r| ==> lines[i] == lines[1..][i - 1];
      r
  }

  /** The index of the first line starting with "User: ", if any. */
  function FirstUserLine(lines: seq<string>): (k: Option<nat>)
    ensures k.Some? ==> k.value < |lines| && StartsWithUser(lines[k.value])
    ensures k.Some? ==> forall i :: 0 <= i < k.value ==> !StartsWithUser(lines[i])
    ensures k.None? ==> forall i :: 0 <= i < |lines| ==> !StartsWithUser(lines[i])
  {
    FirstUserFrom(lines, 0)
  }

  function FirstUserFrom(lines: seq<string>, from: nat): (k: Option<nat>)
    requires from <= |lines|
    requires forall i :: 0 <= i < from ==> !StartsWithUser(lines[i])
    ensures k.Some? ==> from <= k.value < |lines| && StartsWithUser(lines[k.value])
    ensures k.Some? ==> forall i :: 0 <= i < k.value ==> !StartsWithUser(lines[i])
    ensures k.None? ==> forall i :: 0 <= i < |lines| ==> !StartsWithUser(lines[i])
    decreases |lines| - from
  {
    if from == |lines| then None
    else if StartsWithUser(lines[from]) then Some(from)
    else FirstUserFrom(lines, from + 1)
  }

  /** `parse_results`. */
  function ParseResults(raw: string): (r: Option<PerformanceResults>)
  {
    var rest := SkipToUser(Lines(raw));
    if |rest| < 7 then None
    else Some(PerformanceResults(rest[0], rest[1], rest[2], Scores(Candidates(rest[7..]))))
  }

  /** The result in terms of the first "User: " line at index k: None when
      there is no such line or fewer than seven lines start there; otherwise
      the user and the two totals are lines k, k+1 and k+2 verbatim, and the
      scores come from the non-empty lines among k+7, k+9, k+11, ... */
  lemma ParseResultsSpec(raw: string)
    ensures var lines := Lines(raw);
      var k := FirstUserLine(lines);
      && (ParseResults(raw).None? <==> k.None? || |lines| - k.value < 7)
      && (ParseResults(raw).Some? ==>
            var res := ParseResults(raw).value;
            && res.user == lines[k.value] && StartsWithUser(res.user)
            && res.totalLivePp == lines[k.value + 1]
            && res.totalLocalPp == lines[k.value + 2]
            && res.scores == Scores(Candidates(lines[k.value + 7..])))
  {
    var lines := Lines(raw);
    match FirstUserLine(lines)
    case Some(k) =>
      SkipToUserFrom(lines, k);
    case None =>
      SkipToUserNone(lines);
  }

  /** Skipping to the first "User: " line at index k leaves lines[k..]. */
  lemma {:induction false} SkipToUserFrom(lines: seq<string>, k: nat)
    requires k < |lines| && StartsWithUser(lines[k])
    requires forall i :: 0 <= i < k ==> !StartsWithUser(lines[i])
    ensures SkipToUser(lines) == lines[k..]
  {
    if k > 0 {
      SkipToUserFrom(lines[1..], k - 1);
      assert lines[1..][k - 1..] == lines[k..];
    }
  }

  /** With no "User: " line, skipping consumes everything. */
  lemma {:induction false} SkipToUserNone(lines: seq<string>)
    requires forall i :: 0 <= i < |lines| ==> !StartsWithUser(lines[i])
    ensures SkipToUser(lines) == []
  {
    if lines != [] {
      SkipToUserNone(lines[1..]);
    }
  }

  /** The candidate rows are exactly the lines at even offsets of the body
      that are not empty. */
  lemma CandidatesAreEvenLines(body: seq<string>, l: string)
    ensures l in Candidates(body) <==> l != [] && exists i :: 0 <= 2 * i < |body| && body[2 * i] == l
  {
    var st := StepBy2(body);
    if l in st {
      var j :| 0 <= j < |st| && st[j] == l;
      assert body[2 * j] == l;
    }
    if exists i :: 0 <= 2 * i < |body| && body[2 * i] == l {
      var i :| 0 <= 2 * i < |body| && body[2 * i] == l;
      assert st[i] == l;
    }
  }

  /** filter_map over consecutive stretches concatenates: elements keep
      their order and one element never affects another. */
  lemma {:induction false} FilterMapAppend<A, B>(a: seq<A>, b: seq<A>, f: A -> Option<B>)
    ensures FilterMap(a + b, f) == FilterMap(a, f) + FilterMap(b, f)
  {
    if a != [] {
      var ab := a + b;
      assert ab[0] == a[0] && ab[1..] == a[1..] + b;
      FilterMapAppend(a[1..], b, f);
    } else {
      assert a + b == b;
    }
  }

  /** filter_map keeps exactly the values `f` produces. */
  lemma {:induction false} FilterMapMembers<A, B>(xs: seq<A>, f: A -> Option<B>, y: B)
    ensures y in FilterMap(xs, f) <==> exists x :: x in xs && f(x) == Some(y)
  {
    if xs != [] {
      FilterMapMembers(xs[1..], f, y);
      assert forall x :: x in xs <==> x == xs[0] || x in xs[1..];
    }
  }

  /** A single row contributes its score when it has five fields and is
      dropped silently otherwise. */
  lemma ScoresOfRow(row: string)
    ensures Scores([row]) == if |Fields(row)| >= 5 then [ParseRow(row).value] else []
  {
  }
}
