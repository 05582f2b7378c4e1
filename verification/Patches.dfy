/**
 The filter that removes the changes to discarded files from a patch, line by line.
 */
module Patches {
  import opened Wrappers

  type Line(==, !new)
  type Name(==, !new)

  /** The two kinds of header: unified ("---", then "+++") and context ("***", then "---"). */
  datatype Style = Unified | ContextDiff

  /** How lines are recognised, and which files are discarded. */
  datatype Format = Format(
    first: Line -> Option<(Name, Style)>,
    second: (Style, Line) -> Option<Name>,
    discarded: Name -> bool)
  {
    /** A header is two lines that match; only with a line after them does it begin a file's changes. */
    predicate IsHeader(lines: seq<Line>) {
      |lines| >= 2 && first(lines[0]).Some? && second(first(lines[0]).value.1, lines[1]).Some?
    }

    function Names(lines: seq<Line>): (Name, Name)
      requires IsHeader(lines)
    {
      (first(lines[0]).value.0, second(first(lines[0]).value.1, lines[1]).value)
    }

    predicate Drops(names: (Name, Name)) {
      discarded(names.0) || discarded(names.1)
    }

    /** The first lines that are kept or dropped together. */
    function Chunk(lines: seq<Line>): (n: nat)
      requires lines != []
      ensures 1 <= n <= |lines|
    {
      if first(lines[0]).None? || |lines| == 1 then 1
      else if !IsHeader(lines) || |lines| == 2 then 2
      else 3
    }

    predicate Begins(lines: seq<Line>) {
      IsHeader(lines) && |lines| >= 3
    }

    /** The names in the headers that begin changes, in order. */
    function Headers(lines: seq<Line>): seq<(Name, Name)> {
      if lines == [] then []
      else (if Begins(lines) then [Names(lines)] else []) + Headers(lines[Chunk(lines)..])
    }

    function Kept(headers: seq<(Name, Name)>): seq<(Name, Name)> {
      if headers == [] then []
      else (if Drops(headers[0]) then [] else [headers[0]]) + Kept(headers[1..])
    }

    /** Whether these lines are dropped, when the lines before them are or are not. */
    predicate Discards(lines: seq<Line>, discard: bool) {
      if Begins(lines) then Drops(Names(lines)) else discard
    }

    /** A header decides for all lines up to the next one. */
    function Filtered(lines: seq<Line>, discard: bool): seq<Line> {
      if lines == [] then []
      else
        var d := Discards(lines, discard);
        (if d then [] else lines[..Chunk(lines)]) + Filtered(lines[Chunk(lines)..], d)
    }

    /** A chunk that is put before other lines stays a chunk, unless only the end of the patch made it one. */
    lemma ChunkStays(lines: seq<Line>, rest: seq<Line>)
      requires lines != [] && (Chunk(lines) < |lines| || rest == [])
      ensures Chunk(lines[..Chunk(lines)] + rest) == Chunk(lines)
      ensures Begins(lines[..Chunk(lines)] + rest) <==> Begins(lines)
      ensures Begins(lines) ==> Names(lines[..Chunk(lines)] + rest) == Names(lines)
    {
    }

    lemma FilteredKept(lines: seq<Line>, discard: bool)
      requires lines != [] && !Discards(lines, discard)
      ensures var n := Chunk(lines);
              var rest := Filtered(lines[n..], false);
              && Filtered(lines, discard) == lines[..n] + rest
              && !Discards(lines[..n] + rest, false)
              && Chunk(lines[..n] + rest) == n
              && (lines[..n] + rest)[..n] == lines[..n] && (lines[..n] + rest)[n..] == rest
              && (Begins(lines[..n] + rest) <==> Begins(lines))
              && (Begins(lines) ==> Names(lines[..n] + rest) == Names(lines))
    {
      ChunkStays(lines, Filtered(lines[Chunk(lines)..], false));
    }

    /** Filtering what was filtered changes nothing. */
    lemma {:induction false} Idempotent(lines: seq<Line>, discard: bool)
      ensures Filtered(Filtered(lines, discard), false) == Filtered(lines, discard)
    {
      if lines != [] {
        var n := Chunk(lines);
        Idempotent(lines[n..], Discards(lines, discard));
        if Discards(lines, discard) {
          assert Filtered(lines, discard) == Filtered(lines[n..], true);
        } else {
          FilteredKept(lines, discard);
        }
      }
    }

    /** The headers of the filtered patch are those of the patch that name no discarded file, in order. */
    lemma {:induction false} FilteredHeaders(lines: seq<Line>, discard: bool)
      ensures Headers(Filtered(lines, discard)) == Kept(Headers(lines))
    {
      if lines != [] {
        var n := Chunk(lines);
        FilteredHeaders(lines[n..], Discards(lines, discard));
        if Discards(lines, discard) {
          assert Filtered(lines, discard) == Filtered(lines[n..], true);
        } else {
          FilteredKept(lines, discard);
        }
        assert Begins(lines) ==> Headers(lines)[1..] == Headers(lines[n..]);
        assert !Begins(lines) ==> Headers(lines) == Headers(lines[n..]);
      }
    }

    lemma {:induction false} KeptAllIff(headers: seq<(Name, Name)>)
      ensures |Kept(headers)| <= |headers|
      ensures Kept(headers) == headers <==> forall h | h in headers :: !Drops(h)
    {
      if headers != [] {
        KeptAllIff(headers[1..]);
        if Kept(headers) == headers {
          assert !Drops(headers[0]) && Kept(headers)[1..] == Kept(headers[1..]);
        }
      }
    }

    lemma {:induction false} NothingDropped(lines: seq<Line>)
      requires forall h | h in Headers(lines) :: !Drops(h)
      ensures Filtered(lines, false) == lines
    {
      if lines != [] {
        hide Chunk, IsHeader, Drops;
        var rest := lines[Chunk(lines)..];
        assert Headers(lines) == (if Begins(lines) then [Names(lines)] else []) + Headers(rest);
        assert Begins(lines) ==> Names(lines) in Headers(lines);
        assert !Discards(lines, false);
        assert forall h | h in Headers(rest) :: h in Headers(lines);
        NothingDropped(rest);
        assert Filtered(lines, false) == lines[..Chunk(lines)] + rest;
      }
    }

    /** A patch is unchanged exactly if none of its headers names a discarded file. */
    lemma UnchangedIff(lines: seq<Line>)
      ensures Filtered(lines, false) == lines <==> forall h | h in Headers(lines) :: !Drops(h)
    {
      if Filtered(lines, false) == lines {
        FilteredHeaders(lines, false);
        KeptAllIff(Headers(lines));
      } else if forall h | h in Headers(lines) :: !Drops(h) {
        NothingDropped(lines);
      }
    }
  }

  // ----- Which headers decide -----

  /** A header with a line after it, wherever it is. */
  predicate HeaderAt(format: Format, lines: seq<Line>, i: nat) {
    i <= |lines| && format.Begins(lines[i..])
  }

  /** The filter begins a chunk at i. */
  predicate StartsChunk(format: Format, lines: seq<Line>, i: nat)
    decreases |lines|
  {
    i == 0 || (lines != [] && format.Chunk(lines) <= i
               && StartsChunk(format, lines[format.Chunk(lines)..], i - format.Chunk(lines)))
  }

  /** The filter takes the header at i for one. */
  predicate Seen(format: Format, lines: seq<Line>, i: nat) {
    StartsChunk(format, lines, i) && HeaderAt(format, lines, i)
  }

  /** For each line the position of the header that decides about it; at is the position of the first line. */
  function Deciders(format: Format, lines: seq<Line>, at: nat, last: Option<nat>): (r: seq<Option<nat>>)
    ensures |r| == |lines|
    decreases |lines|
  {
    if lines == [] then []
    else
      var n, d := format.Chunk(lines), if format.Begins(lines) then Some(at) else last;
      seq(n, i => d) + Deciders(format, lines[n..], at + n, d)
  }

  /** A line stays unless the header that decides about it names a discarded file. */
  predicate Stays(format: Format, lines: seq<Line>, decider: Option<nat>) {
    decider.Some? && decider.value <= |lines| && format.IsHeader(lines[decider.value..]) ==>
      !format.Drops(format.Names(lines[decider.value..]))
  }

  /** The lines of part that stay. */
  function Chosen(format: Format, lines: seq<Line>, part: seq<Line>, deciders: seq<Option<nat>>): seq<Line>
    requires |part| == |deciders|
  {
    if part == [] then []
    else (if Stays(format, lines, deciders[0]) then [part[0]] else []) + Chosen(format, lines, part[1..], deciders[1..])
  }

  lemma {:induction false} ChosenTogether(format: Format, lines: seq<Line>, chunk: seq<Line>, rest: seq<Line>,
                                          d: Option<nat>,
                                          deciders: seq<Option<nat>>)
    requires |rest| == |deciders|
    ensures Chosen(format, lines, chunk + rest, seq(|chunk|, i => d) + deciders) ==
            (if Stays(format, lines, d) then chunk else []) + Chosen(format, lines, rest, deciders)
    decreases |chunk|
  {
    var all := seq(|chunk|, i => d) + deciders;
    if chunk == [] {
      assert chunk + rest == rest && all == deciders;
    } else {
      assert (chunk + rest)[1..] == chunk[1..] + rest;
      assert all[1..] == seq(|chunk| - 1, i => d) + deciders;
      ChosenTogether(format, lines, chunk[1..], rest, d, deciders);
      assert chunk == [chunk[0]] + chunk[1..];
    }
  }

  /** The filtered patch is made of the lines that stay. */
  lemma {:induction false} FilteredByDeciders(format: Format, lines: seq<Line>, at: nat, last: Option<nat>)
    requires at <= |lines|
    ensures format.Filtered(lines[at..], !Stays(format, lines, last)) ==
            Chosen(format, lines, lines[at..], Deciders(format, lines[at..], at, last))
    decreases |lines| - at
  {
    var part := lines[at..];
    if part != [] {
      var n := format.Chunk(part);
      var d := if format.Begins(part) then Some(at) else last;
      assert part[n..] == lines[at + n..] && part == part[..n] + part[n..];
      assert format.Discards(part, !Stays(format, lines, last)) == !Stays(format, lines, d);
      assert Deciders(format, part, at, last) == seq(n, i => d) + Deciders(format, part[n..], at + n, d);
      assert format.Filtered(part, !Stays(format, lines, last)) ==
             (if Stays(format, lines, d) then part[..n] else []) + format.Filtered(part[n..], !Stays(format, lines, d));
      hide Format.Chunk, Format.Begins, Format.Discards, Stays, Deciders, Format.Filtered, Chosen;
      FilteredByDeciders(format, lines, at + n, d);
      ChosenTogether(format, lines, part[..n], part[n..], d, Deciders(format, part[n..], at + n, d));
    }
  }

  /**
   After the first chunk the filter sees the headers that it sees in the rest; in the chunk, only its
   first line can begin one.
   */
  lemma SeenRest(format: Format, lines: seq<Line>, i: nat)
    requires lines != []
    ensures i == 0 ==> (Seen(format, lines, i) <==> format.Begins(lines))
    ensures 0 < i < format.Chunk(lines) ==> !Seen(format, lines, i)
    ensures i >= format.Chunk(lines) ==>
              (Seen(format, lines, i) <==> Seen(format, lines[format.Chunk(lines)..], i - format.Chunk(lines)))
  {
    var n := format.Chunk(lines);
    hide Format.Chunk, Format.Begins;
    assert lines[0..] == lines;
    if n <= i <= |lines| {
      assert lines[n..][i - n..] == lines[i..];
    }
  }

  /** d is the position of the last header up to line j that the filter sees, and last if it sees none. */
  ghost predicate LastSeen(format: Format, lines: seq<Line>, at: nat, last: Option<nat>, j: nat, d: Option<nat>) {
    || (d == last && forall i: nat | i <= j :: !Seen(format, lines, i))
    || (d.Some? && at <= d.value <= at + j && Seen(format, lines, d.value - at)
        && forall i: nat | d.value - at < i <= j :: !Seen(format, lines, i))
  }

  lemma LastSeenRest(format: Format, lines: seq<Line>, at: nat, last: Option<nat>, j: nat, d: Option<nat>)
    requires lines != [] && j >= format.Chunk(lines)
    requires var n := format.Chunk(lines);
             LastSeen(format, lines[n..], at + n, if format.Begins(lines) then Some(at) else last, j - n, d)
    ensures LastSeen(format, lines, at, last, j, d)
  {
    var n := format.Chunk(lines);
    hide Format.Chunk, Format.Begins, Seen;
    forall i: nat {
      SeenRest(format, lines, i);
    }
    var rest := lines[n..];
    if forall i: nat | i <= j - n :: !Seen(format, rest, i) {
      forall i: nat | 0 < i <= j ensures !Seen(format, lines, i) {
        if i >= n { assert !Seen(format, rest, i - n); }
      }
    } else {
      forall i: nat | d.value - at < i <= j ensures !Seen(format, lines, i) {
        assert !Seen(format, rest, i - n);
      }
    }
  }

  /** The decider of a line is the last header up to it that the filter sees. */
  lemma {:induction false} DeciderIsLastSeen(format: Format, lines: seq<Line>, at: nat, last: Option<nat>, j: nat)
    requires j < |lines|
    ensures LastSeen(format, lines, at, last, j, Deciders(format, lines, at, last)[j])
    decreases |lines|
  {
    hide *;
    var n, d := format.Chunk(lines), if format.Begins(lines) then Some(at) else last;
    DecidersStep(format, lines, at, last, j);
    if j < n {
      LastSeenFirst(format, lines, at, last, j);
    } else {
      DeciderIsLastSeen(format, lines[n..], at + n, d, j - n);
      LastSeenRest(format, lines, at, last, j, Deciders(format, lines[n..], at + n, d)[j - n]);
    }
  }

  lemma DecidersStep(format: Format, lines: seq<Line>, at: nat, last: Option<nat>, j: nat)
    requires j < |lines|
    ensures var n, d := format.Chunk(lines), if format.Begins(lines) then Some(at) else last;
            Deciders(format, lines, at, last)[j] == if j < n then d else Deciders(format, lines[n..], at + n, d)[j - n]
  {
  }

  lemma LastSeenFirst(format: Format, lines: seq<Line>, at: nat, last: Option<nat>, j: nat)
    requires lines != [] && j < format.Chunk(lines)
    ensures LastSeen(format, lines, at, last, j, if format.Begins(lines) then Some(at) else last)
  {
    hide Format.Chunk, Format.Begins, Seen;
    forall i: nat {
      SeenRest(format, lines, i);
    }
  }

  /** A header decides, about its own lines and those up to the next one, exactly if the filter begins a chunk there. */
  lemma DecidesIff(format: Format, lines: seq<Line>, i: nat)
    requires HeaderAt(format, lines, i)
    ensures (exists j :: i <= j < |lines| && Deciders(format, lines, 0, None)[j] == Some(i))
            <==> StartsChunk(format, lines, i)
  {
    assert i < |lines|;
    hide StartsChunk, HeaderAt, Deciders;
    forall j: nat | i <= j < |lines| && Deciders(format, lines, 0, None)[j] == Some(i)
      ensures StartsChunk(format, lines, i)
    {
      DeciderIsLastSeen(format, lines, 0, None, j);
    }
    if StartsChunk(format, lines, i) {
      DeciderIsLastSeen(format, lines, 0, None, i);
      assert Seen(format, lines, i) && Deciders(format, lines, 0, None)[i] == Some(i);
    }
  }

  /**
   Whether a chunk begins at i depends on the two lines before: it does not if the line before begins one and
   matches as a first line, or if the header before that takes the line at i for the one after it.
   */
  lemma {:induction false} StartsIff(format: Format, lines: seq<Line>, i: nat)
    requires 0 < i < |lines|
    ensures StartsChunk(format, lines, i) <==>
            && !(StartsChunk(format, lines, i - 1) && format.first(lines[i - 1]).Some?)
            && !(i >= 2 && Seen(format, lines, i - 2))
    decreases |lines|
  {
    var n := format.Chunk(lines);
    assert lines[0..] == lines;
    if i > n {
      StartsIff(format, lines[n..], i - n);
      assert lines[n..][i - n - 1] == lines[i - 1];
      StartsRest(format, lines, i);
      StartsRest(format, lines, i - 1);
      if i >= 2 { SeenRest(format, lines, i - 2); }
      hide StartsChunk, Seen;
    }
  }

  lemma StartsRest(format: Format, lines: seq<Line>, i: nat)
    requires lines != [] && i >= format.Chunk(lines)
    ensures StartsChunk(format, lines, i)
            <==> StartsChunk(format, lines[format.Chunk(lines)..], i - format.Chunk(lines))
  {
  }

  /** The last header up to j, whether the filter sees it or not. */
  function LastHeader(format: Format, lines: seq<Line>, j: nat): (d: Option<nat>)
    ensures d.Some? ==> d.value <= j && HeaderAt(format, lines, d.value)
    ensures forall i: nat | i <= j && HeaderAt(format, lines, i) :: d.Some? && i <= d.value
  {
    if HeaderAt(format, lines, j) then Some(j) else if j == 0 then None else LastHeader(format, lines, j - 1)
  }

  /** Every line is decided by the last header up to it if and only if the filter begins a chunk at every header. */
  lemma HeadersDecideIff(format: Format, lines: seq<Line>)
    ensures (forall j: nat | j < |lines| :: Deciders(format, lines, 0, None)[j] == LastHeader(format, lines, j))
            <==> forall i: nat | HeaderAt(format, lines, i) :: StartsChunk(format, lines, i)
  {
    hide Deciders, LastHeader, StartsChunk;
    if forall j: nat | j < |lines| :: Deciders(format, lines, 0, None)[j] == LastHeader(format, lines, j) {
      forall i: nat | HeaderAt(format, lines, i) ensures StartsChunk(format, lines, i) {
        hide Format.Begins;
        DeciderIsLastSeen(format, lines, 0, None, i);
        assert LastHeader(format, lines, i) == Some(i) == Deciders(format, lines, 0, None)[i];
      }
    }
    if forall i: nat | HeaderAt(format, lines, i) :: StartsChunk(format, lines, i) {
      forall j: nat | j < |lines| ensures Deciders(format, lines, 0, None)[j] == LastHeader(format, lines, j) {
        DeciderIsLastSeen(format, lines, 0, None, j);
        AllSeenMeans(format, lines, j, Deciders(format, lines, 0, None)[j]);
      }
    }
  }

  lemma AllSeenMeans(format: Format, lines: seq<Line>, j: nat, d: Option<nat>)
    requires LastSeen(format, lines, 0, None, j, d)
    requires forall i: nat | HeaderAt(format, lines, i) :: StartsChunk(format, lines, i)
    ensures d == LastHeader(format, lines, j)
  {
    var last := LastHeader(format, lines, j);
    hide LastHeader, HeaderAt, StartsChunk;
    if last.Some? {
      assert Seen(format, lines, last.value);
    }
    if d.Some? {
      assert HeaderAt(format, lines, d.value);
    }
  }

  /** A header right after an unconfirmed first line is missed: what it would discard is kept. */
  lemma MissedHeader(format: Format, lines: seq<Line>)
    requires |lines| == 4 && format.first(lines[0]).Some?
             && format.second(format.first(lines[0]).value.1, lines[1]) == None
    requires HeaderAt(format, lines, 1) && format.Drops(format.Names(lines[1..]))
    requires format.first(lines[2]) == None && format.first(lines[3]) == None
    ensures !StartsChunk(format, lines, 1)
    ensures format.Headers(lines) == [] && format.Filtered(lines, false) == lines
  {
    assert format.Chunk(lines) == 2;
    var rest := lines[2..];
    assert rest[1..] == [lines[3]] && rest[0] == lines[2];
    assert format.Headers(rest) == format.Headers(rest[1..]) == [];
    assert format.Filtered(rest[1..], false) == [lines[3]];
    assert format.Filtered(rest, false) == [lines[2]] + [lines[3]];
    assert lines == lines[..2] + [lines[2]] + [lines[3]];
  }

  // ----- The loop -----

  function Line1(header1: Option<(Line, Name, Style)>): seq<Line> {
    if header1.Some? then [header1.value.0] else []
  }

  function Line2(header2: Option<(Line, Name)>): seq<Line> {
    if header2.Some? then [header2.value.0] else []
  }

  /** The lines that are held back are the header found so far. */
  predicate HeldBack(format: Format, header1: Option<(Line, Name, Style)>, header2: Option<(Line, Name)>) {
    && (header1.Some? ==> format.first(header1.value.0) == Some((header1.value.1, header1.value.2)))
    && (header2.Some? ==> header1.Some? && format.second(header1.value.2, header2.value.0) == Some(header2.value.1))
  }

  function WriteLine(written: seq<Line>, discard: bool, lines: seq<Line>): seq<Line> {
    if discard then written else written + lines
  }

  /** What is left to do, with the lines that are held back, completes what is written to the filtered patch. */
  ghost predicate Remaining(format: Format, lines: seq<Line>, written: seq<Line>, filesToPatch: nat, held: seq<Line>,
                            discard: bool)
  {
    && written + format.Filtered(held, discard) == format.Filtered(lines, false)
    && filesToPatch + |format.Kept(format.Headers(held))| == |format.Kept(format.Headers(lines))|
  }

  /** Once a chunk is complete, what remains is filtered as it decides. */
  lemma Step(format: Format, lines: seq<Line>, written: seq<Line>, filesToPatch: nat, discard: bool, chunk: seq<Line>,
             rest: seq<Line>)
    requires Remaining(format, lines, written, filesToPatch, chunk + rest, discard)
    requires chunk != [] && format.Chunk(chunk + rest) == |chunk|
    ensures var d := format.Discards(chunk + rest, discard);
            Remaining(format, lines, WriteLine(written, d, chunk),
                      filesToPatch + if format.Begins(chunk + rest) && !d then 1 else 0, rest, d)
  {
    var held, d := chunk + rest, format.Discards(chunk + rest, discard);
    assert held[|chunk|..] == rest && held[..|chunk|] == chunk;
    StepHeaders(format, held, discard);
    hide Format.Chunk, Format.Begins, Format.Discards, Format.Headers, Format.Kept;
    assert written + format.Filtered(held, discard) == WriteLine(written, d, chunk) + format.Filtered(rest, d);
  }

  lemma StepHeaders(format: Format, held: seq<Line>, discard: bool)
    requires held != []
    ensures |format.Kept(format.Headers(held))|
            == |format.Kept(format.Headers(held[format.Chunk(held)..]))|
               + if format.Begins(held) && !format.Discards(held, discard) then 1 else 0
  {
    hide Format.Chunk, Format.IsHeader;
    var headers := format.Headers(held);
    if format.Begins(held) {
      assert headers[0] == format.Names(held) && headers[1..] == format.Headers(held[format.Chunk(held)..]);
    } else {
      assert headers == format.Headers(held[format.Chunk(held)..]);
    }
  }

  /** A header at the very end begins nothing and is written like other lines. */
  lemma LastLines(format: Format, lines: seq<Line>, written: seq<Line>, filesToPatch: nat, held: seq<Line>,
                  discard: bool)
    requires Remaining(format, lines, written, filesToPatch, held, discard)
    requires |held| <= 2 && (|held| == 2 ==> format.IsHeader(held))
    ensures WriteLine(written, discard, held) == format.Filtered(lines, false)
    ensures filesToPatch == |format.Kept(format.Headers(lines))|
  {
    if held != [] {
      assert format.Chunk(held) == |held| && held[..|held|] == held && held[|held|..] == [];
      assert format.Filtered(held, discard) == if discard then [] else held;
      assert format.Headers(held) == format.Headers(held[|held|..]);
    }
  }

  lemma WriteTwice(written: seq<Line>, discard: bool, line: Line, lines: seq<Line>)
    ensures WriteLine(WriteLine(written, discard, [line]), discard, lines) ==
            WriteLine(written, discard, [line] + lines)
  {
  }

  /** A line outside headers. */
  lemma PlainLine(format: Format, lines: seq<Line>, written: seq<Line>, filesToPatch: nat, discard: bool, i: nat)
    requires i < |lines| && format.first(lines[i]) == None
    requires Remaining(format, lines, written, filesToPatch, [] + lines[i..], discard)
    ensures Remaining(format, lines, WriteLine(written, discard, [lines[i]]), filesToPatch,
                      [] + lines[i + 1..], discard)
  {
    hide Remaining, Format.Filtered, Format.Headers, Format.Kept, WriteLine;
    var rest := lines[i + 1..];
    assert [] + lines[i..] == [lines[i]] + rest && [] + rest == rest;
    Step(format, lines, written, filesToPatch, discard, [lines[i]], rest);
  }

  /** A line that is held back. */
  lemma HoldBack(format: Format, lines: seq<Line>, written: seq<Line>, filesToPatch: nat, discard: bool,
                 held: seq<Line>, i: nat)
    requires i < |lines| && Remaining(format, lines, written, filesToPatch, held + lines[i..], discard)
    ensures Remaining(format, lines, written, filesToPatch, (held + [lines[i]]) + lines[i + 1..], discard)
  {
    hide Remaining;
    assert held + lines[i..] == (held + [lines[i]]) + lines[i + 1..];
  }

  /** A line that does not confirm the header, which is then written with it. */
  lemma NoHeader(format: Format, lines: seq<Line>, written: seq<Line>, filesToPatch: nat, discard: bool, header1: Line,
                 i: nat)
    requires i < |lines| && Remaining(format, lines, written, filesToPatch, [header1] + lines[i..], discard)
    requires format.first(header1).Some? && format.second(format.first(header1).value.1, lines[i]) == None
    ensures Remaining(format, lines, WriteLine(WriteLine(written, discard, [header1]), discard, [lines[i]]),
                      filesToPatch, [] + lines[i + 1..], discard)
  {
    hide Remaining, Format.Filtered, Format.Headers, Format.Kept, WriteLine;
    var chunk, rest := [header1, lines[i]], lines[i + 1..];
    assert [header1] + lines[i..] == chunk + rest && [] + rest == rest;
    assert format.Chunk(chunk + rest) == 2;
    Step(format, lines, written, filesToPatch, discard, chunk, rest);
    WriteTwice(written, discard, header1, [lines[i]]);
    assert [header1] + [lines[i]] == chunk;
  }

  /** The line after a header. */
  lemma AfterHeader(format: Format, lines: seq<Line>, written: seq<Line>, filesToPatch: nat, discard: bool,
                    header1: Line, header2: Line, i: nat)
    requires i < |lines| && Remaining(format, lines, written, filesToPatch, [header1] + [header2] + lines[i..], discard)
    requires format.IsHeader([header1, header2])
    ensures var d := format.Drops(format.Names([header1, header2]));
            Remaining(format, lines,
                      if d then written
                      else WriteLine(WriteLine(WriteLine(written, d, [header1]), d, [header2]), d, [lines[i]]),
                      if d then filesToPatch else filesToPatch + 1, [] + lines[i + 1..], d)
  {
    hide Remaining, Format.Filtered, Format.Headers, Format.Kept;
    var chunk, rest := [header1, header2, lines[i]], lines[i + 1..];
    var d := format.Drops(format.Names([header1, header2]));
    assert [header1] + [header2] + lines[i..] == chunk + rest && [] + rest == rest;
    assert format.Begins(chunk + rest) && format.Chunk(chunk + rest) == 3;
    Step(format, lines, written, filesToPatch, discard, chunk, rest);
    WriteTwice(WriteLine(written, d, [header1]), d, header2, [lines[i]]);
    WriteTwice(written, d, header1, [header2] + [lines[i]]);
    assert [header1] + ([header2] + [lines[i]]) == chunk;
  }

  method ProcessRegularPatch(format: Format, lines: seq<Line>) returns (written: seq<Line>, filesToPatch: nat)
    ensures written == format.Filtered(lines, false)
    ensures filesToPatch == |format.Kept(format.Headers(lines))|
  {
    written, filesToPatch := [], 0;
    var header1: Option<(Line, Name, Style)> := None;
    var header2: Option<(Line, Name)> := None;
    var discard := false;
    assert [] + lines[0..] == lines;
    assert Remaining(format, lines, [], 0, lines, false);
    hide Remaining, Format.Filtered, Format.Headers, Format.Kept, Format.Chunk, Format.Begins, Format.Discards,
         WriteLine;
    ghost var held := [];
    for i := 0 to |lines|
      invariant HeldBack(format, header1, header2)
      invariant held == if header1 == None then []
                        else if header2 == None then Line1(header1)
                        else Line1(header1) + Line2(header2)
      invariant Remaining(format, lines, written, filesToPatch, held + lines[i..], discard)
    {
      var line := lines[i];
      if header1 == None {
        if format.first(line) == None {
          PlainLine(format, lines, written, filesToPatch, discard, i);
          written := WriteLine(written, discard, [line]);
        } else {
          HoldBack(format, lines, written, filesToPatch, discard, held, i);
          header1 := Some((line, format.first(line).value.0, format.first(line).value.1));
          held := held + [line];
        }
      } else if header2 == None {
        if format.second(header1.value.2, line) == None {
          NoHeader(format, lines, written, filesToPatch, discard, header1.value.0, i);
          written := WriteLine(written, discard, [header1.value.0]);
          header1, held := None, [];
          written := WriteLine(written, discard, [line]);
        } else {
          HoldBack(format, lines, written, filesToPatch, discard, held, i);
          header2 := Some((line, format.second(header1.value.2, line).value));
          held := held + [line];
        }
      } else {
        AfterHeader(format, lines, written, filesToPatch, discard, header1.value.0, header2.value.0, i);
        discard := format.discarded(header1.value.1) || format.discarded(header2.value.1);
        if !discard {
          filesToPatch := filesToPatch + 1;
          written := WriteLine(written, discard, [header1.value.0]);
          written := WriteLine(written, discard, [header2.value.0]);
          written := WriteLine(written, discard, [line]);
        }
        header1, header2, held := None, None, [];
      }
    }
    assert held + lines[|lines|..] == held;
    LastLines(format, lines, written, filesToPatch, held, discard);
    assert header1.Some? ==> held == [header1.value.0] + Line2(header2);
    if header1.Some? {
      WriteTwice(written, discard, header1.value.0, Line2(header2));
      written := WriteLine(written, discard, [header1.value.0]);
    }
    if header2.Some? {
      written := WriteLine(written, discard, [header2.value.0]);
    }
  }
}
