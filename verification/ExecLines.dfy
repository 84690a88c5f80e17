/** Line reassembly of the exec plugin: a fixed buffer with carry-over turns arbitrarily cut reads
    of a program's output into the lines handed to `parse_line`. */
module ExecLines {
  import opened Common

  type bytes = seq<byte>

  const NUL: byte := 0
  const NL: byte := 10
  const CR: byte := 13
  const BUFFER_SIZE: nat := 1200

  /** Bytes that fit in front of the terminating NUL. */
  const CAPACITY: nat := BUFFER_SIZE - 1

  /** Where a C string search for a newline stops: at the newline, at a NUL, or at the end. */
  function Stop(s: bytes): (k: nat)
    ensures k <= |s|
    ensures forall i :: 0 <= i < k ==> s[i] != NL && s[i] != NUL
    ensures k < |s| ==> s[k] == NL || s[k] == NUL
  {
    if s == [] || s[0] == NL || s[0] == NUL then 0 else 1 + Stop(s[1..])
  }

  predicate HasLine(s: bytes) { Stop(s) < |s| && s[Stop(s)] == NL }

  /** One trailing carriage return is dropped. */
  function Strip(line: bytes): bytes
  {
    if line != [] && line[|line| - 1] == CR then line[..|line| - 1] else line
  }

  /** The first line of the buffer as `parse_line` gets it, and what follows its newline. */
  function First(s: bytes): bytes
  {
    Strip(s[..Stop(s)])
  }

  function After(s: bytes): (r: bytes)
    ensures HasLine(s) ==> |r| < |s|
  {
    if Stop(s) < |s| then s[Stop(s) + 1..] else []
  }

  /** The lines one pass over a NUL-terminated buffer finds, and what it leaves. */
  function Lines(s: bytes): seq<bytes>
    decreases |s|
  {
    if HasLine(s) then [First(s)] + Lines(After(s)) else []
  }

  function Rest(s: bytes): (r: bytes)
    ensures |r| <= |s| && !HasLine(r)
    decreases |s|
  {
    if HasLine(s) then Rest(After(s)) else s
  }

  /** The whole-stream meaning: deliver lines until the first one that holds a NUL or does not fit. */
  function Deliverable(s: bytes): seq<bytes>
    decreases |s|
  {
    if HasLine(s) && Stop(s) < CAPACITY then [First(s)] + Deliverable(After(s)) else []
  }

  lemma {:induction false} StopAppend(a: bytes, b: bytes)
    requires Stop(a) < |a|
    ensures Stop(a + b) == Stop(a) && HasLine(a + b) == HasLine(a)
    ensures First(a + b) == First(a) && After(a + b) == After(a) + b
  {
    assert forall i :: 0 <= i < |a| ==> (a + b)[i] == a[i];
    var k := Stop(a);
    assert (a + b)[..k] == a[..k] && (a + b)[k + 1..] == a[k + 1..] + b;
  }

  /** Cutting a stream anywhere and carrying the rest over changes nothing. */
  lemma {:induction false} LinesAppend(a: bytes, b: bytes)
    ensures Lines(a + b) == Lines(a) + Lines(Rest(a) + b)
    ensures Rest(a + b) == Rest(Rest(a) + b)
    decreases |a|
  {
    hide First, Stop, After;
    if HasLine(a) {
      StopAppend(a, b);
      LinesAppend(After(a), b);
    }
  }

  /** Every line in the buffer leaves room for its newline. */
  ghost predicate Fits(s: bytes)
    decreases |s|
  {
    HasLine(s) ==> Stop(s) < CAPACITY && Fits(After(s))
  }

  lemma {:induction false} ShortFits(s: bytes)
    requires |s| <= CAPACITY
    ensures Fits(s)
    decreases |s|
  {
    hide First, Stop, After;
    if HasLine(s) { ShortFits(After(s)); }
  }

  lemma {:induction false} FitsAppend(a: bytes, b: bytes)
    requires Fits(a)
    ensures Deliverable(a + b) == Lines(a) + Deliverable(Rest(a) + b)
    ensures Fits(Rest(a) + b) ==> Fits(a + b)
    decreases |a|
  {
    hide First, Stop, After;
    if HasLine(a) {
      StopAppend(a, b);
      FitsAppend(After(a), b);
    }
  }

  /** One more read keeps the carry-over and everything delivered so far. */
  lemma {:induction false} ReadKeeps(done: bytes, chunk: bytes)
    requires Fits(done) && |Rest(done)| + |chunk| <= CAPACITY
    ensures Fits(done + chunk)
    ensures Lines(done + chunk) == Lines(done) + Lines(Rest(done) + chunk)
    ensures Rest(done + chunk) == Rest(Rest(done) + chunk)
  {
    ShortFits(Rest(done) + chunk);
    FitsAppend(done, chunk);
    LinesAppend(done, chunk);
  }

  /** When the reader stops, by end of stream or by a full buffer, it has delivered all it can. */
  lemma {:induction false} StopsComplete(stream: bytes, taken: nat)
    requires taken <= |stream| && Fits(stream[..taken])
    requires taken == |stream| || |Rest(stream[..taken])| == CAPACITY
    ensures Lines(stream[..taken]) == Deliverable(stream)
  {
    assert stream == stream[..taken] + stream[taken..];
    if taken < |stream| {
      FullStops(stream[..taken], stream[taken..]);
    } else {
      assert stream == stream[..taken];
      FitsAppend(stream, []);
      assert stream + [] == stream && Rest(stream) + [] == Rest(stream);
    }
  }

  /** Nothing is carried over only at the very start or right behind a newline. */
  lemma {:induction false} NothingCarried(done: bytes)
    requires Rest(done) == [] && done != []
    ensures done[|done| - 1] == NL
    decreases |done|
  {
    if HasLine(done) && After(done) != [] { NothingCarried(After(done)); }
  }

  /** An empty line starts at position `i`. */
  predicate EmptyLineAt(stream: bytes, i: nat)
  {
    i < |stream| && stream[i] == NL && (i > 0 ==> stream[i - 1] == NL)
  }

  lemma {:induction false} UnderrunAtEmptyLine(stream: bytes, taken: nat, chunk: bytes)
    requires taken + |chunk| <= |stream| && chunk != [] && chunk == stream[taken..taken + |chunk|]
    requires (Rest(stream[..taken]) + chunk)[0] == NL
    ensures EmptyLineAt(stream, taken)
  {
    NoLineLeft(Rest(stream[..taken]));
    if taken > 0 { NothingCarried(stream[..taken]); }
  }

  lemma {:induction false} NoLineLeft(s: bytes)
    requires !HasLine(s)
    ensures Lines(s) == [] && Rest(s) == s && (s != [] ==> s[0] != NL)
  {
  }

  /** Once the buffer is full without a line, nothing that follows can be delivered. */
  lemma {:induction false} FullStops(done: bytes, more: bytes)
    requires Fits(done) && |Rest(done)| == CAPACITY
    ensures Deliverable(done + more) == Lines(done)
  {
    FitsAppend(done, more);
    var r := Rest(done);
    assert forall i :: 0 <= i < |r| ==> (r + more)[i] == r[i];
    if Stop(r) < |r| { StopAppend(r, more); }
  }

  // ------------------------------------------------------ the simple reference

  /** Position of the first newline, or the length. */
  function Newline(s: bytes): (k: nat)
    ensures k <= |s|
    ensures forall i :: 0 <= i < k ==> s[i] != NL
    ensures k < |s| ==> s[k] == NL
  {
    if s == [] || s[0] == NL then 0 else 1 + Newline(s[1..])
  }

  /** The newline-terminated lines of a stream, each without one trailing carriage return. */
  function Split(s: bytes): seq<bytes>
    decreases |s|
  {
    if Newline(s) < |s| then [Strip(s[..Newline(s)])] + Split(s[Newline(s) + 1..]) else []
  }

  /** What a line is, spelled out: one carriage return in front of the newline goes, nothing else does. */
  lemma {:induction false} SplitSpelled(line: bytes, rest: bytes)
    requires NL !in line
    ensures Split(line + [CR, NL] + rest) == [line] + Split(rest)
    ensures (line != [] ==> line[|line| - 1] != CR) ==> Split(line + [NL] + rest) == [line] + Split(rest)
    ensures Split(line) == []
  {
    hide Newline;
    var s, t := line + [CR, NL] + rest, line + [NL] + rest;
    NewlineAt(s, |line| + 1);
    assert s[..|line| + 1] == line + [CR] && s[|line| + 2..] == rest;
    assert Strip(line + [CR]) == line;
    NewlineAt(t, |line|);
    assert t[..|line|] == line && t[|line| + 1..] == rest;
    assert forall i :: 0 <= i < |line| ==> line[i] != NL;
  }

  /** Every terminated line is free of NULs and at most 1198 bytes long. */
  predicate WellFormed(s: bytes)
  {
    Newline(s) < |s| ==>
      Newline(s) <= 1198 && NUL !in s[..Newline(s)] && WellFormed(s[Newline(s) + 1..])
  }

  lemma {:induction false} StopIsNewline(s: bytes)
    ensures HasLine(s) <==> Newline(s) < |s| && NUL !in s[..Newline(s)]
    ensures HasLine(s) ==> Stop(s) == Newline(s) && First(s) == Strip(s[..Newline(s)]) && After(s) == s[Newline(s) + 1..]
  {
    hide Newline, Stop, Strip;
    var n, k := Newline(s), Stop(s);
    if k < n {
      assert s[k] == NUL;
      assert s[..n][k] == NUL;
    } else {
      assert forall i :: 0 <= i < n ==> s[..n][i] == s[i] != NUL;
      assert n < |s| ==> k == n;
    }
  }

  /** All terminated lines are delivered if and only if they are all well formed. */
  lemma {:induction false} DeliversAll(s: bytes)
    ensures Deliverable(s) == Split(s) <==> WellFormed(s)
    ensures |Deliverable(s)| <= |Split(s)|
    decreases |s|
  {
    hide First, After, Stop, Newline, Strip;
    StopIsNewline(s);
    if Newline(s) < |s| {
      var tail := s[Newline(s) + 1..];
      DeliversAll(tail);
      if HasLine(s) && Stop(s) < CAPACITY {
        assert Deliverable(s)[1..] == Deliverable(tail) && Split(s)[1..] == Split(tail);
      }
    }
  }

  lemma {:induction false} NewlineAt(s: bytes, k: nat)
    requires k < |s| && s[k] == NL && forall i :: 0 <= i < k ==> s[i] != NL
    ensures Newline(s) == k
  {
    hide Newline;
    var n := Newline(s);
    assert n < |s| ==> s[n] == NL;
  }

  /** Two streams that lose a line: one with a NUL, one with a line of 1199 bytes. */
  lemma {:induction false} LostLines()
    ensures Deliverable([NUL, NL]) != Split([NUL, NL])
    ensures var long := seq(1199, _ => 65) + [NL]; Deliverable(long) != Split(long)
  {
    hide Newline, Deliverable, Split;
    var short: bytes, long: bytes := [NUL, NL], seq(1199, _ => 65) + [NL];
    NewlineAt(short, 1);
    assert short[0] in short[..1];
    DeliversAll(short);
    NewlineAt(long, 1199);
    DeliversAll(long);
  }

  /** Every line, the unterminated last one included, is free of NULs and at most 1198 bytes long. */
  predicate Readable(s: bytes)
    decreases |s|
  {
    var n := Newline(s);
    n <= 1198 && NUL !in s[..n] && (n < |s| ==> Readable(s[n + 1..]))
  }

  /** The unterminated rest of a stream. */
  function Tail(s: bytes): bytes
    decreases |s|
  {
    if Newline(s) < |s| then Tail(s[Newline(s) + 1..]) else s
  }

  lemma {:induction false} ReadableMeans(s: bytes)
    ensures Readable(s) <==> WellFormed(s) && |Tail(s)| <= 1198 && NUL !in Tail(s)
    decreases |s|
  {
    if Newline(s) < |s| {
      ReadableMeans(s[Newline(s) + 1..]);
    } else {
      assert s[..|s|] == s;
    }
  }

  lemma {:induction false} NewlineOfPrefix(s: bytes, k: nat)
    requires k <= |s|
    ensures Newline(s[..k]) == if k <= Newline(s) then k else Newline(s)
  {
    hide Newline;
    var n, m := Newline(s), Newline(s[..k]);
    assert m < k ==> s[..k][m] == s[m];
    assert n < k ==> s[..k][n] == s[n];
  }

  /** However far a readable stream was read, what is carried over holds no newline and leaves room. */
  lemma {:induction false} CarryFits(s: bytes, k: nat)
    requires Readable(s) && k <= |s|
    ensures NL !in Rest(s[..k]) && |Rest(s[..k])| < CAPACITY
    decreases |s|
  {
    hide Newline, Stop, First, Strip, After, Rest;
    var n, part := Newline(s), s[..k];
    NewlineOfPrefix(s, k);
    StopIsNewline(part);
    if k <= n {
      NoLineLeft(part);
      assert forall i :: 0 <= i < k ==> part[i] != NL;
    } else {
      assert part[..n] == s[..n] && part[n + 1..] == s[n + 1..][..k - n - 1];
      RestAfter(part);
      CarryFits(s[n + 1..], k - n - 1);
    }
  }

  // ------------------------------------------- when the byte in front of the buffer is read

  /** Up to a newline, well-formed lines are exactly those that leave nothing behind. */
  lemma {:induction false} EndsWell(s: bytes)
    requires s != [] ==> s[|s| - 1] == NL
    ensures WellFormed(s) <==> Rest(s) == [] && Fits(s)
    decreases |s|
  {
    hide First, Strip, Stop, After, Newline;
    StopIsNewline(s);
    if s != [] {
      assert Newline(s) < |s|;
      EndsWell(s[Newline(s) + 1..]);
    }
  }

  /** An empty line behind well-formed lines only. */
  predicate EmptyLineReached(stream: bytes, i: nat)
  {
    EmptyLineAt(stream, i) && WellFormed(stream[..i])
  }

  /** Reads that each bring something and fit the free space. */
  ghost predicate ValidCut(carry: bytes, chunks: seq<bytes>)
    decreases |chunks|
  {
    chunks != [] ==>
      && chunks[0] != [] && |carry| + |chunks[0]| <= CAPACITY
      && ValidCut(Rest(carry + chunks[0]), chunks[1..])
  }

  /** Some read leaves a newline at the start of the buffer. */
  ghost predicate LooksInFront(carry: bytes, chunks: seq<bytes>)
    requires ValidCut(carry, chunks)
    decreases |chunks|
  {
    chunks != [] && ((carry + chunks[0])[0] == NL || LooksInFront(Rest(carry + chunks[0]), chunks[1..]))
  }

  lemma {:induction false} ReachedAt(stream: bytes, taken: nat, chunk: bytes)
    requires taken + |chunk| <= |stream| && chunk != [] && chunk == stream[taken..taken + |chunk|]
    requires Fits(stream[..taken]) && (Rest(stream[..taken]) + chunk)[0] == NL
    ensures EmptyLineReached(stream, taken)
  {
    hide Rest, Fits, WellFormed;
    UnderrunAtEmptyLine(stream, taken, chunk);
    var carry := Rest(stream[..taken]);
    NoLineLeft(carry);
    assert carry == [];
    EndsWell(stream[..taken]);
  }

  lemma {:induction false} LooksAtEmptyLine(stream: bytes, taken: nat, chunks: seq<bytes>) returns (i: nat)
    requires taken <= |stream| && Concat(chunks) <= stream[taken..] && Fits(stream[..taken])
    requires ValidCut(Rest(stream[..taken]), chunks) && LooksInFront(Rest(stream[..taken]), chunks)
    ensures EmptyLineReached(stream, i)
    decreases |chunks|
  {
    hide Rest, Fits, EmptyLineReached;
    var carry, chunk := Rest(stream[..taken]), chunks[0];
    assert Concat(chunks) == chunk + Concat(chunks[1..]);
    assert chunk == stream[taken..][..|chunk|] == stream[taken..taken + |chunk|];
    if (carry + chunk)[0] == NL {
      ReachedAt(stream, taken, chunk);
      i := taken;
    } else {
      assert stream[..taken + |chunk|] == stream[..taken] + chunk;
      ReadKeeps(stream[..taken], chunk);
      assert stream[taken + |chunk|..] == stream[taken..][|chunk|..];
      assert Concat(chunks[1..]) == Concat(chunks)[|chunk|..];
      i := LooksAtEmptyLine(stream, taken + |chunk|, chunks[1..]);
    }
  }

  /** One read per line. */
  ghost function ByLines(s: bytes): seq<bytes>
    decreases |s|
  {
    if HasLine(s) then [s[..Stop(s) + 1]] + ByLines(After(s)) else []
  }

  lemma {:induction false} StopAt(s: bytes, k: nat)
    requires k < |s| && s[k] == NL && forall i :: 0 <= i < k ==> s[i] != NL && s[i] != NUL
    ensures Stop(s) == k
  {
    hide Stop;
    assert Stop(s) <= k;
  }

  lemma {:induction false} RestAfter(s: bytes)
    requires HasLine(s)
    ensures Rest(s) == Rest(After(s))
  {
  }

  lemma {:induction false} OneLine(s: bytes)
    requires HasLine(s)
    ensures Rest(s[..Stop(s) + 1]) == [] && s == s[..Stop(s) + 1] + After(s)
  {
    hide Stop, Rest;
    var k, line := Stop(s), s[..Stop(s) + 1];
    StopAt(line, k);
    NoLineLeft([]);
    RestAfter(line);
  }

  lemma {:induction false} ByLinesReach(s: bytes)
    requires Rest(s) == [] && Fits(s)
    ensures var chunks := ByLines(s) + [[NL]];
            Concat(chunks) == s + [NL] && ValidCut([], chunks) && LooksInFront([], chunks)
    decreases |s|
  {
    hide Stop, After, First;
    var chunks := ByLines(s) + [[NL]];
    if HasLine(s) {
      OneLine(s);
      var line := s[..Stop(s) + 1];
      ByLinesReach(After(s));
      assert chunks[1..] == ByLines(After(s)) + [[NL]];
      assert [] + line == line;
      assert Concat(chunks) == line + (After(s) + [NL]) == s + [NL];
    } else {
      assert chunks == [[NL]] && [[NL]][1..] == [];
      assert Concat([[NL]]) == [NL] + Concat([]) == [NL];
      assert [] + [NL] == [NL];
    }
  }

  /** Some way of cutting the stream into reads makes the code look in front of the buffer. */
  ghost predicate MayLookInFront(stream: bytes)
  {
    exists chunks :: Concat(chunks) <= stream && ValidCut([], chunks) && LooksInFront([], chunks)
  }

  lemma {:induction false} OnlyAtEmptyLines(stream: bytes, chunks: seq<bytes>) returns (i: nat)
    requires Concat(chunks) <= stream && ValidCut([], chunks) && LooksInFront([], chunks)
    ensures EmptyLineReached(stream, i)
  {
    hide Fits, ValidCut, LooksInFront, Rest, EmptyLineReached;
    assert stream[..0] == [] && stream[0..] == stream;
    NoLineLeft([]);
    ShortFits([]);
    i := LooksAtEmptyLine(stream, 0, chunks);
  }

  lemma {:induction false} CutToLook(stream: bytes, i: nat) returns (chunks: seq<bytes>)
    requires EmptyLineReached(stream, i)
    ensures Concat(chunks) <= stream && ValidCut([], chunks) && LooksInFront([], chunks)
  {
    hide Fits, ValidCut, LooksInFront, Rest, WellFormed, ByLines;
    EndsWell(stream[..i]);
    ByLinesReach(stream[..i]);
    assert stream[..i] + [NL] == stream[..i + 1];
    chunks := ByLines(stream[..i]) + [[NL]];
  }

  /** The exact condition: there is such a cut if and only if an empty line follows well-formed lines only. */
  lemma {:induction false} LooksExactly(stream: bytes)
    ensures MayLookInFront(stream) <==> exists i: nat :: EmptyLineReached(stream, i)
  {
    hide ValidCut, LooksInFront, EmptyLineReached, Concat;
    if MayLookInFront(stream) {
      var chunks :| Concat(chunks) <= stream && ValidCut([], chunks) && LooksInFront([], chunks);
      var i := OnlyAtEmptyLines(stream, chunks);
    }
    if i: nat :| EmptyLineReached(stream, i) {
      var chunks := CutToLook(stream, i);
    }
  }

  // --------------------------------------------------------------- the reader

  /** What finding a newline `k` bytes behind `p` says about the rest of the pass. */
  lemma {:induction false} CutsOff(data: bytes, p: nat, k: nat)
    requires p + k < |data| && HasLine(data[p..]) && Stop(data[p..]) == k
    ensures Lines(data[p..]) == [Strip(data[p..p + k])] + Lines(data[p + k + 1..])
    ensures Rest(data[p..]) == Rest(data[p + k + 1..])
    ensures data[p + k] == NL && (p == 0 ==> (k == 0 <==> data[0] == NL))
  {
    assert data[p..][..k] == data[p..p + k] && data[p..][k + 1..] == data[p + k + 1..];
  }

  class LineReader {
    const buffer: array<byte>
    var fill: nat
    var delivered: seq<bytes>
    var underrun: bool // the byte in front of the buffer was looked at

    ghost predicate Valid()
      reads this
    {
      buffer.Length == BUFFER_SIZE && fill <= CAPACITY
    }

    ghost function Carry(): bytes
      requires Valid()
      reads this, buffer
    {
      buffer[..fill]
    }

    constructor ()
      ensures Valid() && fresh(buffer) && Carry() == [] && delivered == [] && !underrun
    {
      buffer := new byte[BUFFER_SIZE](_ => NUL);
      fill, delivered, underrun := 0, [], false;
    }

    /** `strchr(p, '\n')` in the buffer, which holds `data` from `p` on and then a NUL; the result is
        the end when nothing is found. */
    method FindNewline(p: nat, end: nat, ghost data: bytes) returns (k: nat)
      requires p <= end == |data| && end < buffer.Length && buffer[end] == NUL
      requires forall i :: p <= i < end ==> buffer[i] == data[i]
      ensures p <= k <= end
      ensures k == if HasLine(data[p..]) then p + Stop(data[p..]) else end
    {
      k := p;
      while buffer[k] != NL && buffer[k] != NUL
        invariant p <= k <= end
        invariant k <= p + Stop(data[p..])
        decreases end - k
      {
        assert data[p..][k - p] == data[k];
        k := k + 1;
      }
      assert k < end ==> data[p..][k - p] == data[k];
      if buffer[k] != NL {
        k := end;
      }
    }

    /** Terminate the line at `p` whose newline is at `k`, in place, and pick it up as a C string. */
    method CutLine(p: nat, k: nat) returns (line: bytes)
      requires p <= k < buffer.Length && (p > 0 ==> buffer[p - 1] == NUL)
      modifies this`underrun, buffer
      ensures line == Strip(old(buffer[p..k]))
      ensures old(buffer[p..k]) == if p < k && old(buffer[k - 1]) == CR then line + [CR] else line
      ensures buffer[k] == NUL && forall i :: k < i < buffer.Length ==> buffer[i] == old(buffer[i])
      ensures underrun == (old(underrun) || k == 0)
    {
      var q := k;
      buffer[k] := NUL;
      if k == 0 {
        underrun := true;
      } else if buffer[k - 1] == CR {
        buffer[k - 1] := NUL;
        q := k - 1;
      }
      line := buffer[p..q];
      assert p < k ==> old(buffer[p..k])[k - p - 1] == old(buffer[k - 1]);
      assert line == old(buffer[p..q]) == old(buffer[p..k])[..q - p];
    }

    /** The inner loop: hand over every complete line among the first `len` bytes. */
    method HandOver(len: nat) returns (p: nat)
      requires len < buffer.Length && buffer[len] == NUL && len > 0
      modifies this`delivered, this`underrun, buffer
      ensures p <= len && buffer[p..len] == Rest(old(buffer[..len]))
      ensures delivered == old(delivered) + Lines(old(buffer[..len]))
      ensures underrun == (old(underrun) || old(buffer[0]) == NL)
    {
      hide Lines, Rest, Stop, Strip;
      ghost var data := buffer[..len];
      p := 0;
      assert data[0..] == data;
      var k := FindNewline(p, len, data);
      while k < len
        invariant p <= k <= len && buffer[len] == NUL
        invariant forall i :: p <= i < len ==> buffer[i] == data[i]
        invariant p > 0 ==> buffer[p - 1] == NUL
        invariant k == if HasLine(data[p..]) then p + Stop(data[p..]) else len
        invariant delivered + Lines(data[p..]) == old(delivered) + Lines(data)
        invariant Rest(data[p..]) == Rest(data)
        invariant underrun == (old(underrun) || (p > 0 && data[0] == NL))
        decreases len - p
      {
        CutsOff(data, p, k - p);
        assert buffer[p..k] == data[p..k];
        var line := CutLine(p, k);
        assert delivered + Lines(data[p..]) == (delivered + [line]) + Lines(data[k + 1..]);
        delivered := delivered + [line];
        p := k + 1;
        k := FindNewline(p, len, data);
      }
      NoLineLeft(data[p..]);
      assert buffer[p..len] == data[p..];
    }

    /** The work done for one successful read of `chunk`. */
    method Feed(chunk: bytes)
      requires Valid() && 0 < |chunk| <= CAPACITY - fill
      modifies this, buffer
      ensures Valid()
      ensures delivered == old(delivered) + Lines(old(Carry()) + chunk)
      ensures Carry() == Rest(old(Carry()) + chunk)
      ensures underrun == (old(underrun) || (old(Carry()) + chunk)[0] == NL)
    {
      hide Lines, Rest;
      forall i | 0 <= i < |chunk| {
        buffer[fill + i] := chunk[i];
      }
      var len := fill + |chunk|;
      buffer[len] := NUL;
      assert buffer[..len] == old(Carry()) + chunk;
      var p := HandOver(len);
      fill := len - p;
      ghost var left := buffer[p..len];
      forall i | 0 <= i < fill {
        buffer[i] := buffer[p + i];
      }
      assert buffer[..fill] == left;
    }

    /** The read loop over a whole stream, for every way of cutting it into reads. A read of zero bytes,
        at the end of the stream or because the buffer is full, ends the loop. */
    method Run(stream: bytes) returns (taken: nat)
      requires Valid() && fill == 0
      modifies this, buffer
      ensures Valid() && delivered == old(delivered) + Deliverable(stream)
      ensures taken <= |stream| && (taken == |stream| || fill == CAPACITY)
      ensures Carry() == Rest(stream[..taken])
      ensures Readable(stream) ==> taken == |stream| && NL !in Carry() && fill < CAPACITY
      ensures underrun && !old(underrun) ==> exists i: nat :: EmptyLineReached(stream, i)
    {
      hide Lines, Rest, Fits, Deliverable, EmptyLineReached, Readable;
      taken := 0;
      assert stream[..0] == [];
      ReadKeeps([], []) by { ShortFits([]); }
      NoLineLeft([]);
      while taken < |stream| && fill < CAPACITY
        invariant Valid() && taken <= |stream|
        invariant Carry() == Rest(stream[..taken]) && Fits(stream[..taken])
        invariant delivered == old(delivered) + Lines(stream[..taken])
        invariant underrun && !old(underrun) ==> exists i: nat :: EmptyLineReached(stream, i)
      {
        var n: nat :| 0 < n <= CAPACITY - fill && n <= |stream| - taken;
        var chunk := stream[taken..taken + n];
        ReadKeeps(stream[..taken], chunk);
        assert stream[..taken + n] == stream[..taken] + chunk;
        if (Carry() + chunk)[0] == NL { ReachedAt(stream, taken, chunk); }
        Feed(chunk);
        taken := taken + n;
      }
      StopsComplete(stream, taken);
      if Readable(stream) { CarryFits(stream, taken); }
    }

    /** The read loop for one given way of cutting. */
    method FeedAll(chunks: seq<bytes>)
      requires Valid() && ValidCut(Carry(), chunks)
      modifies this, buffer
      ensures Valid()
      ensures underrun == (old(underrun) || LooksInFront(old(Carry()), chunks))
    {
      hide Lines, Rest;
      var k := 0;
      assert chunks[0..] == chunks;
      while k < |chunks|
        invariant 0 <= k <= |chunks| && Valid() && ValidCut(Carry(), chunks[k..])
        invariant (underrun || LooksInFront(Carry(), chunks[k..])) ==
                  (old(underrun) || LooksInFront(old(Carry()), chunks))
      {
        assert chunks[k..][0] == chunks[k] && chunks[k..][1..] == chunks[k + 1..];
        Feed(chunks[k]);
        k := k + 1;
      }
    }
  }

  /** A first read that starts with a newline makes the code look in front of the buffer. */
  method NewlineFirst(rest: bytes) returns (r: LineReader)
    requires |rest| < CAPACITY
    ensures r.underrun
  {
    r := new LineReader();
    assert (r.Carry() + ([NL] + rest))[0] == NL;
    r.Feed([NL] + rest);
  }
}
