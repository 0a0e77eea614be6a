/** Chunk spans: overlapping windows over plain text (searchkernel/chunking/fixed_window_chunker.py), and sections under
    headers (searchkernel/chunking/header_chunker.py). */
module Chunking {
  import opened Base

  /** A half-open range of character positions. */
  datatype Span = Span(start: nat, end: nat)

  // ----- Fixed windows -----

  datatype Tuning = Tuning(maxChars: int, overlap: int, minChars: int)
  {
    /** What the constructor of the chunker accepts. */
    predicate Accepted() { 0 <= overlap < maxChars }
  }

  /** A full window, and one that goes on behind it and repeats exactly its last `overlap` characters. */
  predicate Follows(previous: Span, next: Span, full: nat, overlap: nat) {
    previous.end - previous.start == full && next.start + overlap == previous.end < next.end
  }

  /** The spans start at the front, end at the end, and each overlaps the one before by exactly `overlap`; all but the
      last have the full length. */
  ghost predicate Windows(spans: seq<Span>, n: nat, full: nat, overlap: nat) {
    && spans != [] && spans[0].start == 0 && spans[|spans| - 1].end == n
    && (forall i :: 0 < i < |spans| ==> Follows(spans[i - 1], spans[i], full, overlap))
    && (forall i :: 0 <= i < |spans| ==> spans[i].start <= spans[i].end <= n)
  }

  function Length(s: Span): int { s.end - s.start }

  /** What the chunker owes a body of n characters: windows whose last one either was left as the loop made it, no longer
      than a window, or was folded with a remainder too small to stand alone. */
  ghost predicate WindowsFor(spans: seq<Span>, n: nat, t: Tuning)
    requires t.Accepted()
  {
    && Windows(spans, n, t.maxChars, t.overlap)
    && var last := Length(spans[|spans| - 1]);
       if last <= t.maxChars then |spans| == 1 || last >= t.minChars else WasFolded(last, t)
  }

  /** A full window and a remainder behind it that is no window of sufficient size. */
  predicate WasFolded(last: int, t: Tuning) {
    var remainder := last - (t.maxChars - t.overlap);
    t.overlap < remainder <= t.maxChars && remainder < t.minChars
  }

  /** `_merge_trailing_small_window`, on the windows as the loop leaves them. */
  method MergeTrailingSmallWindow(spans: seq<Span>, n: nat, t: Tuning) returns (merged: seq<Span>)
    requires t.Accepted() && Windows(spans, n, t.maxChars, t.overlap) && Length(spans[|spans| - 1]) <= t.maxChars
    ensures WindowsFor(merged, n, t)
    ensures merged == spans || (|merged| == |spans| - 1 && merged[..|merged| - 1] == spans[..|merged| - 1])
  {
    if |spans| < 2 {
      return spans;
    }
    var last := spans[|spans| - 1];
    if last.end - last.start >= t.minChars {
      return spans;
    }
    var previous := spans[|spans| - 2];
    merged := spans[..|spans| - 2] + [Span(previous.start, last.end)];
    assert Follows(spans[|spans| - 2], last, t.maxChars, t.overlap);
    forall i | 0 < i < |merged| ensures Follows(merged[i - 1], merged[i], t.maxChars, t.overlap) {
      assert Follows(spans[i - 1], spans[i], t.maxChars, t.overlap);
    }
  }

  lemma {:induction false} StartAt(spans: seq<Span>, n: nat, t: Tuning, i: nat)
    requires t.Accepted() && Windows(spans, n, t.maxChars, t.overlap) && i < |spans|
    ensures spans[i].start == i * (t.maxChars - t.overlap)
    ensures i < |spans| - 1 ==> spans[i].end == i * (t.maxChars - t.overlap) + t.maxChars
  {
    var step := t.maxChars - t.overlap;
    if i > 0 {
      StartAt(spans, n, t, i - 1);
      assert Follows(spans[i - 1], spans[i], t.maxChars, t.overlap);
      assert (i - 1) * step + step == i * step;
    }
    if i < |spans| - 1 {
      assert Follows(spans[i], spans[i + 1], t.maxChars, t.overlap);
    }
  }

  /** There is one list of windows for a body and a tuning. */
  lemma WindowsAreDetermined(a: seq<Span>, b: seq<Span>, n: nat, t: Tuning)
    requires t.Accepted() && WindowsFor(a, n, t) && WindowsFor(b, n, t)
    ensures a == b
  {
    if |a| < |b| {
      NotShorter(a, b, n, t);
    } else if |b| < |a| {
      NotShorter(b, a, n, t);
    }
    forall i | 0 <= i < |a| ensures a[i] == b[i] {
      StartAt(a, n, t, i);
      StartAt(b, n, t, i);
    }
  }

  lemma NotShorter(a: seq<Span>, b: seq<Span>, n: nat, t: Tuning)
    requires t.Accepted() && WindowsFor(a, n, t) && WindowsFor(b, n, t)
    ensures |a| >= |b|
  {
    if |a| < |b| {
      var step, j, k := t.maxChars - t.overlap, |a| - 1, |b| - 1;
      StartAt(a, n, t, j);
      StartAt(b, n, t, k);
      assert Follows(b[k - 1], b[k], t.maxChars, t.overlap);
      MoreSteps(j, k, step);
    }
  }

  lemma MoreSteps(j: nat, k: nat, step: nat)
    requires j < k
    ensures k * step == j * step + (k - j) * step
    ensures (k - j) * step >= step && (k > j + 1 ==> (k - j) * step >= 2 * step)
  {
    assert k * step - j * step == (k - j) * step;
    AtLeast(1, k - j, step);
    if k > j + 1 {
      AtLeast(2, k - j, step);
    }
  }

  lemma AtLeast(a: nat, b: nat, step: nat)
    requires a <= b
    ensures a * step <= b * step
  {
  }

  /** Every window reaches the configured minimum exactly when the minimum does not exceed the maximum, or the whole body
      is one window that reaches it. */
  lemma MinimumIsMetExactlyWhen(spans: seq<Span>, n: nat, t: Tuning)
    requires t.Accepted() && WindowsFor(spans, n, t)
    ensures (forall i :: 0 <= i < |spans| ==> Length(spans[i]) >= t.minChars)
      <==> if n <= t.maxChars then n >= t.minChars
           else t.minChars <= t.maxChars || t.minChars <= n <= t.maxChars - t.overlap + t.maxChars
  {
    var last := |spans| - 1;
    StartAt(spans, n, t, last);
    if last > 0 {
      assert Follows(spans[0], spans[1], t.maxChars, t.overlap);
      assert Follows(spans[last - 1], spans[last], t.maxChars, t.overlap);
      AtLeast(1, last, t.maxChars - t.overlap);
      if last > 1 {
        AtLeast(2, last, t.maxChars - t.overlap);
      }
      forall i | 0 <= i < last ensures Length(spans[i]) == t.maxChars {
        assert Follows(spans[i], spans[i + 1], t.maxChars, t.overlap);
      }
    }
  }

  /** A minimum above the maximum is accepted, and then missed by every window but the folded last one. */
  lemma MinimumAboveMaximumIsMissed()
    ensures
      var t, spans := Tuning(2, 0, 3), [Span(0, 2), Span(2, 5)];
      t.Accepted() && WindowsFor(spans, 5, t) && Length(spans[0]) < t.minChars
  {
    var t, spans := Tuning(2, 0, 3), [Span(0, 2), Span(2, 5)];
    assert Follows(spans[0], spans[1], 2, 0);
  }

  /** Where the window loop stands before it appends the window that starts at `start`. */
  ghost predicate Sliding(windows: seq<Span>, start: nat, n: nat, full: nat, overlap: nat) {
    if windows == [] then start == 0
    else
      && Windows(windows, windows[|windows| - 1].end, full, overlap)
      && windows[|windows| - 1].end - windows[|windows| - 1].start == full
      && start + overlap == windows[|windows| - 1].end < n
  }

  lemma NextWindow(windows: seq<Span>, start: nat, end: nat, n: nat, full: nat, overlap: nat)
    requires overlap < full && start < n && end == (if start + full < n then start + full else n)
    requires Sliding(windows, start, n, full, overlap)
    ensures
      var longer := windows + [Span(start, end)];
      Windows(longer, end, full, overlap) && (end < n ==> Sliding(longer, start + full - overlap, n, full, overlap))
  {
    var longer := windows + [Span(start, end)];
    forall i | 0 < i < |longer| ensures Follows(longer[i - 1], longer[i], full, overlap) {
      if i < |windows| {
        assert Follows(windows[i - 1], windows[i], full, overlap);
      }
    }
    forall i | 0 <= i < |windows| ensures windows[i].end <= end {
    }
  }

  /** `chunk_record`: the spans of the chunks. */
  method FixedWindows(n: nat, t: Tuning) returns (spans: seq<Span>)
    requires t.Accepted()
    ensures WindowsFor(spans, n, t)
  {
    if n <= t.maxChars {
      return [Span(0, n)];
    }
    var step := t.maxChars - t.overlap;
    var windows: seq<Span> := [];
    var start := 0;
    while start < n
      invariant 0 <= start < n
      invariant Sliding(windows, start, n, t.maxChars, t.overlap)
      decreases n - start
    {
      var end := if start + t.maxChars < n then start + t.maxChars else n;
      NextWindow(windows, start, end, n, t.maxChars, t.overlap);
      windows := windows + [Span(start, end)];
      if end == n {
        break;
      }
      start := start + step;
    }
    spans := MergeTrailingSmallWindow(windows, n, t);
  }

  /** The chunks put together again: the first one, then what each of the others adds behind the overlap. */
  function Reassembled(body: string, spans: seq<Span>, overlap: nat): string
    requires forall i :: 0 <= i < |spans| ==> spans[i].start <= spans[i].end <= |body|
    requires forall i :: 0 < i < |spans| ==> spans[i].start + overlap <= spans[i].end
  {
    if spans == [] then []
    else
      var last := spans[|spans| - 1];
      if |spans| == 1 then body[last.start..last.end]
      else Reassembled(body, spans[..|spans| - 1], overlap) + body[last.start + overlap..last.end]
  }

  /** Dropping the overlaps gives back the body: no character is lost, repeated or moved. */
  lemma WindowsReassemble(body: string, spans: seq<Span>, full: nat, overlap: nat)
    requires Windows(spans, |body|, full, overlap)
    ensures forall i :: 0 < i < |spans| ==> spans[i].start + overlap <= spans[i].end
    ensures Reassembled(body, spans, overlap) == body
  {
    WindowsJoin(body, spans, full, overlap);
    PrefixReassembles(body, spans, full, overlap, |spans|);
    assert spans[..|spans|] == spans && body[..|body|] == body;
  }

  lemma WindowsJoin(body: string, spans: seq<Span>, full: nat, overlap: nat)
    requires Windows(spans, |body|, full, overlap)
    ensures forall i :: 0 < i < |spans| ==> spans[i].start + overlap <= spans[i].end
  {
    forall i | 0 < i < |spans| ensures spans[i].start + overlap <= spans[i].end {
      assert Follows(spans[i - 1], spans[i], full, overlap);
    }
  }

  lemma {:induction false} PrefixReassembles(body: string, spans: seq<Span>, full: nat, overlap: nat, m: nat)
    requires Windows(spans, |body|, full, overlap) && 0 < m <= |spans|
    requires forall i :: 0 < i < |spans| ==> spans[i].start + overlap <= spans[i].end
    ensures Reassembled(body, spans[..m], overlap) == body[..spans[m - 1].end]
  {
    if m > 1 {
      PrefixReassembles(body, spans, full, overlap, m - 1);
      assert spans[..m][..m - 1] == spans[..m - 1];
      assert Follows(spans[m - 2], spans[m - 1], full, overlap);
      var before, last := spans[m - 2].end, spans[m - 1];
      assert body[..before] + body[last.start + overlap..last.end] == body[..last.end];
    }
  }

  // ----- Sections under headers -----

  datatype Header = Header(level: nat, text: string, start: nat, end: nat)

  /** Headers in the order the document has them. */
  ghost predicate InDocument(headers: seq<Header>, n: nat) {
    && (forall i :: 0 <= i < |headers| ==> headers[i].start <= headers[i].end <= n)
    && (forall i :: 0 <= i < |headers| - 1 ==> headers[i].end <= headers[i + 1].start)
  }

  datatype Chunk = Chunk(id: nat, content: string, headerPath: string, span: Span)

  /** The spans lie side by side from one position to another. */
  ghost predicate Tiles(chunks: seq<Chunk>, from: nat, to: nat) {
    && (chunks == [] ==> from == to)
    && (chunks != [] ==> chunks[0].span.start == from && chunks[|chunks| - 1].span.end == to)
    && (forall i :: 0 <= i < |chunks| ==> chunks[i].span.start <= chunks[i].span.end)
    && (forall i :: 0 <= i < |chunks| - 1 ==> chunks[i].span.end == chunks[i + 1].span.start)
  }

  function SectionEnd(body: string, headers: seq<Header>, i: nat): nat {
    if i + 1 < |headers| then headers[i + 1].start else |body|
  }

  /** `_create_initial_chunks`: one chunk for each header, up to the next header or the end. `compose` makes a chunk's
      text of its header path and the section behind the header. */
  method CreateInitialChunks(body: string, headers: seq<Header>, compose: (string, string) -> string)
      returns (chunks: seq<Chunk>)
    requires InDocument(headers, |body|)
    ensures |chunks| == |headers|
    ensures headers != [] ==> Tiles(chunks, headers[0].start, |body|)
    ensures forall i :: 0 <= i < |chunks| ==> IsSection(chunks[i], body, headers, i, compose)
  {
    var paths := BuildHeaderPaths(headers);
    chunks := [];
    var i := 0;
    while i < |headers|
      invariant 0 <= i == |chunks| <= |headers|
      invariant forall m :: 0 <= m < i ==> IsSection(chunks[m], body, headers, m, compose)
    {
      var chunk := CreateChunk(body, headers, i, paths[i], compose);
      chunks := chunks + [chunk];
      i := i + 1;
    }
    if headers != [] {
      SectionsTile(chunks, body, headers, compose);
    }
  }

  method CreateChunk(
      body: string, headers: seq<Header>, i: nat, path: string, compose: (string, string) -> string)
      returns (chunk: Chunk)
    requires i < |headers| && InDocument(headers, |body|) && path == PathOf(headers, i)
    ensures IsSection(chunk, body, headers, i, compose)
  {
    var end := SectionEnd(body, headers, i);
    chunk := Chunk(i, compose(path, body[headers[i].end..end]), path, Span(headers[i].start, end));
  }

  /** The chunk of header i: its text is made of the headers above it and of everything up to the next header. */
  ghost predicate IsSection(
      chunk: Chunk, body: string, headers: seq<Header>, i: nat, compose: (string, string) -> string)
    requires i < |headers| && InDocument(headers, |body|)
  {
    var end := SectionEnd(body, headers, i);
    && chunk.id == i && chunk.span == Span(headers[i].start, end) && chunk.headerPath == PathOf(headers, i)
    && chunk.content == compose(chunk.headerPath, body[headers[i].end..end])
  }

  lemma SectionsTile(
      chunks: seq<Chunk>, body: string, headers: seq<Header>, compose: (string, string) -> string)
    requires InDocument(headers, |body|) && |chunks| == |headers| > 0
    requires forall i :: 0 <= i < |chunks| ==> IsSection(chunks[i], body, headers, i, compose)
    ensures Tiles(chunks, headers[0].start, |body|)
  {
    forall i | 0 <= i < |chunks|
      ensures chunks[i].span == Span(headers[i].start, SectionEnd(body, headers, i))
      ensures chunks[i].span.start <= chunks[i].span.end
    {
      assert IsSection(chunks[i], body, headers, i, compose);
    }
  }

  // ----- Header paths -----

  /** Header j is above header i: every header between them, and i itself, has a deeper level. */
  predicate Above(headers: seq<Header>, j: nat, i: nat)
    requires j <= i < |headers|
  {
    forall m :: j < m <= i ==> headers[j].level < headers[m].level
  }

  /** The headers above i among the first n, outermost first. */
  function Outline(headers: seq<Header>, i: nat, n: nat): (r: seq<nat>)
    requires n <= i + 1 <= |headers|
    ensures forall k :: 0 <= k < |r| ==> r[k] < n
  {
    if n == 0 then []
    else if Above(headers, n - 1, i) then Outline(headers, i, n - 1) + [n - 1]
    else Outline(headers, i, n - 1)
  }

  function Texts(headers: seq<Header>, path: seq<nat>): seq<string>
    requires forall k :: 0 <= k < |path| ==> path[k] < |headers|
  {
    seq(|path|, k requires 0 <= k < |path| => headers[path[k]].text)
  }

  /** `" > ".join(parts)`. */
  function Join(parts: seq<string>): string {
    if parts == [] then "" else if |parts| == 1 then parts[0] else parts[0] + " > " + Join(parts[1..])
  }

  function PathOf(headers: seq<Header>, i: nat): string
    requires i < |headers|
  {
    Join(Texts(headers, Outline(headers, i, i + 1)))
  }

  lemma {:induction false} OutlineAbove(headers: seq<Header>, i: nat, n: nat)
    requires n <= i + 1 <= |headers|
    ensures forall k :: 0 <= k < |Outline(headers, i, n)| ==> Above(headers, Outline(headers, i, n)[k], i)
  {
    if n > 0 {
      OutlineAbove(headers, i, n - 1);
    }
  }

  /** Levels rise strictly along an outline. */
  lemma {:induction false} OutlineAscends(headers: seq<Header>, i: nat, n: nat)
    requires n <= i + 1 <= |headers|
    ensures Ascends(headers, Outline(headers, i, n))
  {
    if n > 0 {
      OutlineAscends(headers, i, n - 1);
      OutlineAbove(headers, i, n - 1);
      var before := Outline(headers, i, n - 1);
      forall k | 0 <= k < |before| ensures headers[before[k]].level < headers[n - 1].level {
        assert Above(headers, before[k], i);
      }
    }
  }

  ghost predicate Ascends(headers: seq<Header>, path: seq<nat>) {
    && (forall k :: 0 <= k < |path| ==> path[k] < |headers|)
    && (forall a, b :: 0 <= a < b < |path| ==> headers[path[a]].level < headers[path[b]].level)
  }

  /** The part of a path with levels below a bound. */
  function Below(headers: seq<Header>, path: seq<nat>, level: nat): (r: seq<nat>)
    requires forall k :: 0 <= k < |path| ==> path[k] < |headers|
    ensures forall k :: 0 <= k < |r| ==> r[k] < |headers|
  {
    if path == [] then []
    else
      var n := |path| - 1;
      var before := Below(headers, path[..n], level);
      if headers[path[n]].level < level then before + [path[n]] else before
  }

  lemma AboveNext(headers: seq<Header>, j: nat, i: nat)
    requires j < i < |headers|
    ensures Above(headers, j, i) <==> Above(headers, j, i - 1) && headers[j].level < headers[i].level
  {
  }

  lemma BelowAppend(headers: seq<Header>, path: seq<nat>, k: nat, level: nat)
    requires k < |headers| && forall a :: 0 <= a < |path| ==> path[a] < |headers|
    ensures Below(headers, path + [k], level)
      == Below(headers, path, level) + (if headers[k].level < level then [k] else [])
  {
    assert (path + [k])[..|path|] == path;
  }

  /** A header keeps, of the headers above the one before it, exactly those of a lower level. */
  lemma {:induction false} OutlineNext(headers: seq<Header>, i: nat, n: nat)
    requires 0 < i < |headers| && n <= i
    ensures Outline(headers, i, n) == Below(headers, Outline(headers, i - 1, n), headers[i].level)
  {
    if n > 0 {
      OutlineNext(headers, i, n - 1);
      AboveNext(headers, n - 1, i);
      if Above(headers, n - 1, i - 1) {
        BelowAppend(headers, Outline(headers, i - 1, n - 1), n - 1, headers[i].level);
      }
    }
  }

  /** Popping every entry that is not below the level leaves exactly those that are. */
  lemma {:induction false} BelowIsPrefix(headers: seq<Header>, path: seq<nat>, level: nat, m: nat)
    requires m <= |path| && forall k :: 0 <= k < |path| ==> path[k] < |headers|
    requires forall k :: 0 <= k < |path| ==> (headers[path[k]].level < level <==> k < m)
    ensures Below(headers, path, level) == path[..m]
  {
    if path != [] {
      var n := |path| - 1;
      BelowIsPrefix(headers, path[..n], level, if m <= n then m else n);
      assert path == path[..n] + [path[n]];
    }
  }

  /** `while path_parts and path_parts[-1][0] >= header.level: path_parts.pop()`. */
  method PopTo(stack: seq<(nat, string)>, level: nat) returns (kept: seq<(nat, string)>)
    ensures kept <= stack && (kept != [] ==> kept[|kept| - 1].0 < level)
    ensures forall k :: |kept| <= k < |stack| ==> stack[k].0 >= level
  {
    kept := stack;
    while kept != [] && kept[|kept| - 1].0 >= level
      invariant kept <= stack
      invariant forall k :: |kept| <= k < |stack| ==> stack[k].0 >= level
    {
      kept := kept[..|kept| - 1];
    }
  }

  /** The stack before header i. */
  function StackAt(headers: seq<Header>, i: nat): (path: seq<nat>)
    requires i <= |headers|
    ensures forall k :: 0 <= k < |path| ==> path[k] < |headers|
  {
    if i == 0 then [] else Outline(headers, i - 1, i)
  }

  /** Where popping stops: nothing behind m is below the level, and the entry before it is. */
  ghost predicate CutAt(headers: seq<Header>, path: seq<nat>, level: nat, m: nat) {
    && m <= |path| && (forall k :: 0 <= k < |path| ==> path[k] < |headers|)
    && (m > 0 ==> headers[path[m - 1]].level < level)
    && (forall k :: m <= k < |path| ==> headers[path[k]].level >= level)
  }

  /** In a path of rising levels, the entries below a level come first. */
  lemma RisingSplits(headers: seq<Header>, path: seq<nat>, level: nat, m: nat)
    requires Ascends(headers, path) && CutAt(headers, path, level, m)
    ensures forall k :: 0 <= k < |path| ==> (headers[path[k]].level < level <==> k < m)
  {
    forall k | 0 <= k < m ensures headers[path[k]].level < level {
      assert k < m - 1 ==> headers[path[k]].level < headers[path[m - 1]].level;
    }
  }

  /** Popping a path of rising levels leaves what is below the level. */
  lemma PoppedIsBelow(headers: seq<Header>, path: seq<nat>, level: nat, m: nat)
    requires Ascends(headers, path) && CutAt(headers, path, level, m)
    ensures Below(headers, path, level) == path[..m]
  {
    RisingSplits(headers, path, level, m);
    BelowIsPrefix(headers, path, level, m);
  }

  /** The entries of a lower level are the headers above i among those before it. */
  lemma KeptIsOutline(headers: seq<Header>, i: nat, path: seq<nat>, m: nat)
    requires 0 < i < |headers| && path == Outline(headers, i - 1, i) && CutAt(headers, path, headers[i].level, m)
    ensures Outline(headers, i, i) == path[..m]
  {
    assert Ascends(headers, path) by {
      OutlineAscends(headers, i - 1, i);
    }
    assert Below(headers, path, headers[i].level) == path[..m] by {
      PoppedIsBelow(headers, path, headers[i].level, m);
    }
    OutlineNext(headers, i, i);
  }

  /** The entries of a lower level, with header i on top of them, are the headers above i and i itself. */
  lemma PoppedIsOutline(headers: seq<Header>, i: nat, path: seq<nat>, m: nat)
    requires i < |headers| && path == StackAt(headers, i) && CutAt(headers, path, headers[i].level, m)
    ensures StackAt(headers, i + 1) == path[..m] + [i]
  {
    if i > 0 {
      KeptIsOutline(headers, i, path, m);
    }
    OutlineTop(headers, i);
  }

  /** A header is always above itself. */
  lemma OutlineTop(headers: seq<Header>, i: nat)
    requires i < |headers|
    ensures Outline(headers, i, i + 1) == Outline(headers, i, i) + [i]
  {
    assert Above(headers, i, i);
  }

  lemma MirrorsPopped(
      headers: seq<Header>, i: nat, path: seq<nat>, stack: seq<(nat, string)>, kept: seq<(nat, string)>)
    requires i < |headers| && Mirrors(stack, headers, path) && kept <= stack
    requires kept != [] ==> kept[|kept| - 1].0 < headers[i].level
    requires forall k :: |kept| <= k < |stack| ==> stack[k].0 >= headers[i].level
    ensures CutAt(headers, path, headers[i].level, |kept|)
    ensures Mirrors(kept + [(headers[i].level, headers[i].text)], headers, path[..|kept|] + [i])
  {
    var m := |kept|;
    assert m > 0 ==> kept[m - 1] == stack[m - 1];
  }

  ghost predicate PathsOf(paths: seq<string>, headers: seq<Header>) {
    |paths| <= |headers| && forall m :: 0 <= m < |paths| ==> paths[m] == PathOf(headers, m)
  }

  lemma AppendPath(paths: seq<string>, headers: seq<Header>, path: string)
    requires PathsOf(paths, headers) && |paths| < |headers| && path == PathOf(headers, |paths|)
    ensures PathsOf(paths + [path], headers)
  {
    var longer := paths + [path];
    forall m | 0 <= m < |longer| ensures longer[m] == PathOf(headers, m) {
      assert m < |paths| ==> longer[m] == paths[m];
    }
  }

  /** `_build_header_paths`: the stack holds exactly the headers above the current one. */
  method BuildHeaderPaths(headers: seq<Header>) returns (paths: seq<string>)
    ensures |paths| == |headers| && forall i :: 0 <= i < |paths| ==> paths[i] == PathOf(headers, i)
  {
    paths := [];
    var stack: seq<(nat, string)> := [];
    var i := 0;
    while i < |headers|
      invariant 0 <= i == |paths| <= |headers|
      invariant PathsOf(paths, headers) && Mirrors(stack, headers, StackAt(headers, i))
    {
      var path: string;
      stack, path := Push(headers, i, stack);
      AppendPath(paths, headers, path);
      paths := paths + [path];
      i := i + 1;
    }
  }

  /** One header: pop the entries that are not above it, push it, and join the texts on the stack. */
  method Push(headers: seq<Header>, i: nat, stack: seq<(nat, string)>)
      returns (pushed: seq<(nat, string)>, path: string)
    requires i < |headers| && Mirrors(stack, headers, StackAt(headers, i))
    ensures Mirrors(pushed, headers, StackAt(headers, i + 1)) && path == PathOf(headers, i)
  {
    var kept := PopTo(stack, headers[i].level);
    MirrorsPopped(headers, i, StackAt(headers, i), stack, kept);
    PoppedIsOutline(headers, i, StackAt(headers, i), |kept|);
    pushed := kept + [(headers[i].level, headers[i].text)];
    MirroredPath(pushed, headers, i);
    path := Join(PartTexts(pushed));
  }

  lemma MirroredPath(stack: seq<(nat, string)>, headers: seq<Header>, i: nat)
    requires i < |headers| && Mirrors(stack, headers, StackAt(headers, i + 1))
    ensures Join(PartTexts(stack)) == PathOf(headers, i)
  {
    MirroredTexts(stack, headers, StackAt(headers, i + 1));
  }

  lemma MirroredTexts(stack: seq<(nat, string)>, headers: seq<Header>, path: seq<nat>)
    requires Mirrors(stack, headers, path)
    ensures forall k :: 0 <= k < |path| ==> path[k] < |headers|
    ensures PartTexts(stack) == Texts(headers, path)
  {
  }

  function PartTexts(stack: seq<(nat, string)>): (r: seq<string>)
    ensures |r| == |stack| && forall k :: 0 <= k < |r| ==> r[k] == stack[k].1
  {
    seq(|stack|, k requires 0 <= k < |stack| => stack[k].1)
  }

  /** The stack entries are the levels and texts of a path of headers. */
  ghost predicate Mirrors(stack: seq<(nat, string)>, headers: seq<Header>, path: seq<nat>) {
    && |stack| == |path|
    && forall k :: 0 <= k < |path| ==>
      path[k] < |headers| && stack[k] == (headers[path[k]].level, headers[path[k]].text)
  }

  // ----- Merging small chunks -----

  /** `_merge_chunk_pair`: the text and header path come from both chunks, the span from the left one's start to the right
      one's end. */
  function MergePair(left: Chunk, right: Chunk, combine: (Chunk, Chunk) -> (string, string)): Chunk {
    Chunk(left.id, combine(left, right).0, combine(left, right).1, Span(left.span.start, right.span.end))
  }

  /** A run of chunks merged from the left. */
  function Run(chunks: seq<Chunk>, lo: nat, hi: nat, combine: (Chunk, Chunk) -> (string, string)): Chunk
    requires lo < hi <= |chunks|
  {
    if hi == lo + 1 then chunks[lo] else MergePair(Run(chunks, lo, hi - 1, combine), chunks[hi - 1], combine)
  }

  predicate Small(chunks: seq<Chunk>, i: nat, minChars: int)
    requires i < |chunks|
  {
    |chunks[i].content| < minChars
  }

  /** Why a run is one: a chunk stays alone if it is large enough or the only one; a small chunk takes the next one in;
      and a small last chunk joins the run before it. */
  predicate Warranted(chunks: seq<Chunk>, lo: nat, hi: nat, minChars: int)
    requires lo < hi <= |chunks|
  {
    if hi == lo + 1 then !Small(chunks, lo, minChars) || |chunks| == 1
    else if hi == lo + 2 then
      Small(chunks, lo, minChars) || (hi == |chunks| && Small(chunks, hi - 1, minChars))
    else
      hi == lo + 3 && hi == |chunks| && Small(chunks, lo, minChars) && Small(chunks, hi - 1, minChars)
  }

  /** The merged chunks are warranted, consecutive runs of the first n chunks, cut at the given positions. */
  ghost predicate Runs(
      merged: seq<Chunk>, chunks: seq<Chunk>, cuts: seq<nat>, n: nat, minChars: int,
      combine: (Chunk, Chunk) -> (string, string))
    requires n <= |chunks|
  {
    && |cuts| == |merged| + 1 && cuts[0] == 0 && cuts[|merged|] == n
    && (forall g :: 0 <= g < |merged| ==> IsRun(merged[g], chunks, cuts[g], cuts[g + 1], minChars, combine))
  }

  ghost predicate IsRun(
      chunk: Chunk, chunks: seq<Chunk>, lo: nat, hi: nat, minChars: int,
      combine: (Chunk, Chunk) -> (string, string))
  {
    lo < hi <= |chunks| && chunk == Run(chunks, lo, hi, combine) && Warranted(chunks, lo, hi, minChars)
  }

  lemma AppendRun(
      merged: seq<Chunk>, chunks: seq<Chunk>, cuts: seq<nat>, n: nat, minChars: int,
      combine: (Chunk, Chunk) -> (string, string), next: nat)
    requires n < next <= |chunks| && Runs(merged, chunks, cuts, n, minChars, combine)
    requires IsRun(Run(chunks, n, next, combine), chunks, n, next, minChars, combine)
    ensures Runs(merged + [Run(chunks, n, next, combine)], chunks, cuts + [next], next, minChars, combine)
  {
    var longer, ends := merged + [Run(chunks, n, next, combine)], cuts + [next];
    forall g | 0 <= g < |longer| ensures IsRun(longer[g], chunks, ends[g], ends[g + 1], minChars, combine) {
      if g < |merged| {
        assert IsRun(merged[g], chunks, cuts[g], cuts[g + 1], minChars, combine);
      }
    }
  }

  lemma ExtendLastRun(
      merged: seq<Chunk>, chunks: seq<Chunk>, cuts: seq<nat>, n: nat, minChars: int,
      combine: (Chunk, Chunk) -> (string, string))
    requires n + 1 == |chunks| && merged != [] && Runs(merged, chunks, cuts, n, minChars, combine)
    requires Small(chunks, n, minChars)
    ensures
      var last := |merged| - 1;
      Runs(merged[..last] + [MergePair(merged[last], chunks[n], combine)], chunks, cuts[..|cuts| - 1] + [n + 1], n + 1,
           minChars, combine)
  {
    var last := |merged| - 1;
    var longer, ends := merged[..last] + [MergePair(merged[last], chunks[n], combine)], cuts[..|cuts| - 1] + [n + 1];
    forall g | 0 <= g < |longer| ensures IsRun(longer[g], chunks, ends[g], ends[g + 1], minChars, combine) {
      assert IsRun(merged[g], chunks, cuts[g], cuts[g + 1], minChars, combine);
    }
  }

  /** `_merge_small_chunks`: a small chunk is merged with the next one, and a small last chunk with the one before. */
  method MergeSmallChunks(chunks: seq<Chunk>, minChars: int, combine: (Chunk, Chunk) -> (string, string))
      returns (merged: seq<Chunk>, ghost cuts: seq<nat>)
    ensures Runs(merged, chunks, cuts, |chunks|, minChars, combine)
    ensures |merged| <= |chunks| && forall from, to :: Tiles(chunks, from, to) ==> Tiles(merged, from, to)
  {
    merged, cuts := MergeRuns(chunks, minChars, combine);
    forall from, to | Tiles(chunks, from, to) ensures Tiles(merged, from, to) {
      MergingKeepsTiling(merged, chunks, cuts, minChars, combine, from, to);
    }
  }

  /** The merging loop. */
  method MergeRuns(chunks: seq<Chunk>, minChars: int, combine: (Chunk, Chunk) -> (string, string))
      returns (merged: seq<Chunk>, ghost cuts: seq<nat>)
    ensures |merged| <= |chunks| && Runs(merged, chunks, cuts, |chunks|, minChars, combine)
  {
    merged, cuts := [], [0];
    var i := 0;
    while i < |chunks|
      invariant 0 <= i <= |chunks| && (i > 0 ==> merged != []) && |merged| <= i
      invariant Runs(merged, chunks, cuts, i, minChars, combine)
    {
      var current := chunks[i];
      if |current.content| >= minChars {
        AppendRun(merged, chunks, cuts, i, minChars, combine, i + 1);
        merged, cuts := merged + [current], cuts + [i + 1];
        i := i + 1;
      } else if i + 1 < |chunks| {
        AppendRun(merged, chunks, cuts, i, minChars, combine, i + 2);
        merged, cuts := merged + [MergePair(current, chunks[i + 1], combine)], cuts + [i + 2];
        i := i + 2;
      } else if merged != [] {
        ExtendLastRun(merged, chunks, cuts, i, minChars, combine);
        cuts := cuts[..|cuts| - 1] + [i + 1];
        merged := merged[..|merged| - 1] + [MergePair(merged[|merged| - 1], current, combine)];
        return;
      } else {
        AppendRun(merged, chunks, cuts, i, minChars, combine, i + 1);
        merged, cuts := merged + [current], cuts + [i + 1];
        i := i + 1;
      }
    }
  }

  /** There is one way to cut: from the same position both lists go on to the same next one. */
  lemma NextCutAgrees(
      a: seq<Chunk>, as_: seq<nat>, b: seq<Chunk>, bs: seq<nat>, chunks: seq<Chunk>, minChars: int,
      combine: (Chunk, Chunk) -> (string, string), g: nat)
    requires Runs(a, chunks, as_, |chunks|, minChars, combine) && Runs(b, chunks, bs, |chunks|, minChars, combine)
    requires g < |a| && g < |b| && as_[g] == bs[g]
    ensures as_[g + 1] == bs[g + 1]
  {
    assert IsRun(a[g], chunks, as_[g], as_[g + 1], minChars, combine);
    assert IsRun(b[g], chunks, bs[g], bs[g + 1], minChars, combine);
    if g + 1 < |a| {
      assert IsRun(a[g + 1], chunks, as_[g + 1], as_[g + 2], minChars, combine);
    }
    if g + 1 < |b| {
      assert IsRun(b[g + 1], chunks, bs[g + 1], bs[g + 2], minChars, combine);
    }
  }

  lemma {:induction false} CutsAgree(
      a: seq<Chunk>, as_: seq<nat>, b: seq<Chunk>, bs: seq<nat>, chunks: seq<Chunk>, minChars: int,
      combine: (Chunk, Chunk) -> (string, string), g: nat)
    requires Runs(a, chunks, as_, |chunks|, minChars, combine) && Runs(b, chunks, bs, |chunks|, minChars, combine)
    requires g <= |a|
    ensures g <= |b| && as_[g] == bs[g]
  {
    if g > 0 {
      CutsAgree(a, as_, b, bs, chunks, minChars, combine, g - 1);
      assert IsRun(a[g - 1], chunks, as_[g - 1], as_[g], minChars, combine);
      NextCutAgrees(a, as_, b, bs, chunks, minChars, combine, g - 1);
    }
  }

  /** The chunks and the minimum determine what merging yields. */
  lemma MergingIsDetermined(
      a: seq<Chunk>, as_: seq<nat>, b: seq<Chunk>, bs: seq<nat>, chunks: seq<Chunk>, minChars: int,
      combine: (Chunk, Chunk) -> (string, string))
    requires Runs(a, chunks, as_, |chunks|, minChars, combine) && Runs(b, chunks, bs, |chunks|, minChars, combine)
    ensures a == b
  {
    CutsAgree(a, as_, b, bs, chunks, minChars, combine, |a|);
    CutsAgree(b, bs, a, as_, chunks, minChars, combine, |b|);
    forall g | 0 <= g < |a| ensures a[g] == b[g] {
      CutsAgree(a, as_, b, bs, chunks, minChars, combine, g);
      NextCutAgrees(a, as_, b, bs, chunks, minChars, combine, g);
      assert IsRun(a[g], chunks, as_[g], as_[g + 1], minChars, combine);
      assert IsRun(b[g], chunks, bs[g], bs[g + 1], minChars, combine);
    }
  }

  lemma {:induction false} RunSpan(
      chunks: seq<Chunk>, lo: nat, hi: nat, combine: (Chunk, Chunk) -> (string, string), from: nat, to: nat)
    requires lo < hi <= |chunks| && Tiles(chunks, from, to)
    ensures Run(chunks, lo, hi, combine).span == Span(chunks[lo].span.start, chunks[hi - 1].span.end)
    ensures chunks[lo].span.start <= chunks[hi - 1].span.end
    decreases hi
  {
    if lo + 1 < hi {
      RunSpan(chunks, lo, hi - 1, combine, from, to);
      assert chunks[hi - 2].span.end == chunks[hi - 2 + 1].span.start;
    }
  }

  /** One run spans its chunks, and ends where the next chunk starts. */
  lemma RunTiles(
      merged: seq<Chunk>, chunks: seq<Chunk>, cuts: seq<nat>, minChars: int,
      combine: (Chunk, Chunk) -> (string, string), from: nat, to: nat, g: nat)
    requires Tiles(chunks, from, to) && Runs(merged, chunks, cuts, |chunks|, minChars, combine) && g < |merged|
    ensures cuts[g] < cuts[g + 1] <= |chunks|
    ensures merged[g].span == Span(chunks[cuts[g]].span.start, chunks[cuts[g + 1] - 1].span.end)
    ensures merged[g].span.start <= merged[g].span.end
    ensures cuts[g + 1] < |chunks| ==> merged[g].span.end == chunks[cuts[g + 1]].span.start
  {
    assert IsRun(merged[g], chunks, cuts[g], cuts[g + 1], minChars, combine);
    RunSpan(chunks, cuts[g], cuts[g + 1], combine, from, to);
    assert cuts[g + 1] < |chunks| ==>
      chunks[cuts[g + 1] - 1].span.end == chunks[cuts[g + 1] - 1 + 1].span.start;
  }

  /** Merging keeps the tiling: the runs cover what the chunks covered, side by side. */
  lemma MergingKeepsTiling(
      merged: seq<Chunk>, chunks: seq<Chunk>, cuts: seq<nat>, minChars: int,
      combine: (Chunk, Chunk) -> (string, string), from: nat, to: nat)
    requires Tiles(chunks, from, to) && Runs(merged, chunks, cuts, |chunks|, minChars, combine)
    ensures Tiles(merged, from, to)
  {
    forall g | 0 <= g < |merged| ensures merged[g].span.start <= merged[g].span.end {
      RunTiles(merged, chunks, cuts, minChars, combine, from, to, g);
    }
    forall g | 0 <= g < |merged| - 1 ensures merged[g].span.end == merged[g + 1].span.start {
      RunTiles(merged, chunks, cuts, minChars, combine, from, to, g);
      RunTiles(merged, chunks, cuts, minChars, combine, from, to, g + 1);
    }
    if merged != [] {
      RunTiles(merged, chunks, cuts, minChars, combine, from, to, 0);
      RunTiles(merged, chunks, cuts, minChars, combine, from, to, |merged| - 1);
    }
  }

  // ----- Byte offsets -----

  /** UTF-8, as section 3 of RFC 3629 lays it out. */
  function Encode(c: char): (r: seq<nat>)
    ensures 1 <= |r| <= 4 && Width(r[0]) == |r| && forall k :: 1 <= k < |r| ==> Continues(r[k])
  {
    var n := c as int;
    if n < 0x80 then [n]
    else if n < 0x800 then [0xC0 + n / 0x40, 0x80 + n % 0x40]
    else if n < 0x10000 then [0xE0 + n / 0x1000, 0x80 + n / 0x40 % 0x40, 0x80 + n % 0x40]
    else [0xF0 + n / 0x40000, 0x80 + n / 0x1000 % 0x40, 0x80 + n / 0x40 % 0x40, 0x80 + n % 0x40]
  }

  /** How many bytes a character takes whose encoding starts with this byte; zero if none does. */
  function Width(lead: nat): nat {
    if lead < 0x80 then 1 else if lead < 0xC0 then 0 else if lead < 0xE0 then 2 else if lead < 0xF0 then 3
    else if lead < 0xF8 then 4 else 0
  }

  predicate Continues(b: nat) { 0x80 <= b < 0xC0 }

  function Utf8(s: string): seq<nat> {
    if s == [] then [] else Encode(s[0]) + Utf8(s[1..])
  }

  /** `len(part.decode("utf8"))` of a part of a well-formed text, or nothing if it starts or ends inside a character. */
  function DecodedLength(part: seq<nat>): Option<nat>
    decreases |part|
  {
    if part == [] then Some(0)
    else
      var w := Width(part[0]);
      if w == 0 || |part| < w || exists k :: 1 <= k < w && !Continues(part[k]) then None
      else
        var rest := DecodedLength(part[w..]);
        if rest.None? then None else Some(rest.value + 1)
  }

  function ByteOffset(s: string, i: nat): nat
    requires i <= |s|
  {
    |Utf8(s[..i])|
  }

  lemma {:induction false} Utf8Concat(a: string, b: string)
    ensures Utf8(a + b) == Utf8(a) + Utf8(b)
  {
    if a == [] {
      assert a + b == b;
    } else {
      Utf8Concat(a[1..], b);
      assert (a + b)[1..] == a[1..] + b;
    }
  }

  lemma OffsetStep(s: string, k: nat)
    requires s != [] && k < |s|
    ensures ByteOffset(s, k + 1) == |Encode(s[0])| + ByteOffset(s[1..], k)
  {
    assert s[..k + 1][1..] == s[1..][..k];
  }

  lemma SliceBehind<T>(a: seq<T>, b: seq<T>, m: nat)
    requires m <= |a| + |b|
    ensures (a + b)[..m] == if m <= |a| then a[..m] else a + b[..m - |a|]
  {
  }

  lemma DecodeWhole(c: char, tail: seq<nat>)
    ensures DecodedLength(Encode(c) + tail)
      == if DecodedLength(tail).None? then None else Some(DecodedLength(tail).value + 1)
  {
    var part := Encode(c) + tail;
    assert part[0] == Encode(c)[0] && part[|Encode(c)|..] == tail;
    assert forall k | 1 <= k < |Encode(c)| :: part[k] == Encode(c)[k];
  }

  /** Decoding the first m bytes of a text counts its characters up to there, and fails when m is inside one. */
  lemma {:induction false} DecodingCounts(s: string, m: nat)
    requires m <= |Utf8(s)|
    ensures
      var count := DecodedLength(Utf8(s)[..m]);
      if count.Some? then count.value <= |s| && ByteOffset(s, count.value) == m
      else forall k :: 0 <= k <= |s| ==> ByteOffset(s, k) != m
    decreases |s|
  {
    assert s[..0] == [];
    if m > 0 {
      var first := Encode(s[0]);
      SliceBehind(first, Utf8(s[1..]), m);
      forall k | 0 < k <= |s| ensures ByteOffset(s, k) == |first| + ByteOffset(s[1..], k - 1) {
        OffsetStep(s, k - 1);
      }
      if |first| <= m {
        DecodeWhole(s[0], Utf8(s[1..])[..m - |first|]);
        DecodingCounts(s[1..], m - |first|);
      } else {
        assert first[..m][0] == first[0];
      }
    }
  }

  /** A byte offset at which a character starts, or the text ends. */
  ghost predicate OnBoundary(body: string, b: int) {
    exists i :: 0 <= i <= |body| && ByteOffset(body, i) == b
  }

  /** Each byte offset found is that of its character offset. */
  ghost predicate Locates(found: map<int, nat>, body: string) {
    forall b :: b in found ==> found[b] <= |body| && ByteOffset(body, found[b]) == b
  }

  /** `_char_offsets_for`: one forward pass over the sorted byte offsets finds the character offset of each, and raises if
      and only if one of them is not at the start of a character. */
  method CharOffsetsFor(body: string, offsets: set<int>) returns (r: Option<map<int, nat>>)
    requires forall b :: b in offsets ==> 0 <= b <= |Utf8(body)|
    ensures r.Some? <==> forall b :: b in offsets ==> OnBoundary(body, b)
    ensures r.Some? ==> r.value.Keys == offsets && Locates(r.value, body)
  {
    var sorted := SortedInts(offsets);
    SortedIntsOf(offsets);
    forall j | 0 <= j < |sorted| ensures 0 <= sorted[j] <= |Utf8(body)| {
      assert sorted[j] in sorted;
    }
    r := PassOver(body, sorted);
    assert Elements(sorted) == offsets;
    if r.Some? {
      forall b | b in offsets ensures OnBoundary(body, b) {
        assert b in r.value && ByteOffset(body, r.value[b]) == b;
      }
    }
  }

  /** The forward pass. */
  method PassOver(body: string, sorted: seq<int>) returns (r: Option<map<int, nat>>)
    requires forall i, j :: 0 <= i < j < |sorted| ==> sorted[i] < sorted[j]
    requires forall j :: 0 <= j < |sorted| ==> 0 <= sorted[j] <= |Utf8(body)|
    ensures r.None? ==> exists j :: 0 <= j < |sorted| && !OnBoundary(body, sorted[j])
    ensures r.Some? ==> r.value.Keys == Elements(sorted) && Locates(r.value, body)
  {
    var bytes := Utf8(body);
    var found: map<int, nat> := map[];
    var previous: nat, characters: nat, j := 0, 0, 0;
    assert body[..0] == [];
    while j < |sorted|
      invariant 0 <= j <= |sorted| && characters <= |body| && previous == ByteOffset(body, characters)
      invariant previous == if j == 0 then 0 else sorted[j - 1]
      invariant found.Keys == Elements(sorted[..j]) && Locates(found, body)
    {
      assert 0 <= sorted[j];
      var b: nat := sorted[j];
      NextOffset(body, characters, b);
      var count := DecodedLength(bytes[previous..b]);
      if count.None? {
        assert !OnBoundary(body, sorted[j]);
        return None;
      }
      characters, previous := characters + count.value, b;
      found := found[b := characters];
      assert sorted[..j + 1] == sorted[..j] + [sorted[j]];
      j := j + 1;
    }
    assert sorted[..j] == sorted;
    r := Some(found);
  }

  /** From one character boundary, the next offset is on a boundary exactly if the bytes up to it decode. */
  lemma NextOffset(body: string, characters: nat, b: nat)
    requires characters <= |body| && ByteOffset(body, characters) <= b <= |Utf8(body)|
    ensures
      var count := DecodedLength(Utf8(body)[ByteOffset(body, characters)..b]);
      if count.Some? then
        characters + count.value <= |body| && ByteOffset(body, characters + count.value) == b
      else forall i :: 0 <= i <= |body| ==> ByteOffset(body, i) != b
  {
    var start, after := ByteOffset(body, characters), body[characters..];
    BytesBehind(body, characters);
    DecodingCounts(after, b - start);
    assert Utf8(body)[start..b] == Utf8(after)[..b - start];
    forall i | 0 <= i <= |body|
      ensures i >= characters ==> ByteOffset(body, i) == start + ByteOffset(after, i - characters)
      ensures i < characters ==> ByteOffset(body, i) < start
    {
      if i >= characters {
        OffsetBehind(body, characters, i);
      } else {
        OffsetsAscend(body, i, characters);
      }
    }
  }

  lemma BytesBehind(body: string, i: nat)
    requires i <= |body|
    ensures Utf8(body) == Utf8(body[..i]) + Utf8(body[i..])
  {
    assert body == body[..i] + body[i..];
    Utf8Concat(body[..i], body[i..]);
  }

  lemma OffsetBehind(body: string, i: nat, j: nat)
    requires i <= j <= |body|
    ensures ByteOffset(body, j) == ByteOffset(body, i) + ByteOffset(body[i..], j - i)
  {
    assert body[..j] == body[..i] + body[i..][..j - i];
    Utf8Concat(body[..i], body[i..][..j - i]);
  }

  lemma OffsetsAscend(body: string, i: nat, j: nat)
    requires i < j <= |body|
    ensures ByteOffset(body, i) < ByteOffset(body, j)
  {
    OffsetBehind(body, i, j);
    assert body[i..][..j - i] != [];
  }
}
