/** The line loop of grep.c over its 1024-byte buffer. */
module GrepLines {
  import opened Grep

  const BUFSIZE: nat := 1024

  /** The index of the first newline or NUL. */
  function Stop(s: string): (q: nat)
    ensures q <= |s| && (q < |s| ==> s[q] == '\n' || s[q] == '\0')
    ensures forall k :: 0 <= k < q ==> s[k] != '\n' && s[k] != '\0'
  {
    if s == "" || s[0] == '\n' || s[0] == '\0' then 0 else 1 + Stop(s[1..])
  }

  /** A complete line of the text, that is, the text up to its first newline, without NUL. */
  predicate HasLine(s: string) { Stop(s) < |s| && s[Stop(s)] == '\n' }

  /** What grep prints for a file: the matching lines, each with its newline, up to the first line that
      holds a NUL or does not fit into the buffer. An unfinished last line is not printed. */
  ghost function Printed(re: string, s: string): string
    decreases |s|
  {
    if !HasLine(s) || Stop(s) >= BUFSIZE - 1 then ""
    else (if Matches(re, s[..Stop(s)]) then s[..Stop(s) + 1] else "") + Printed(re, s[Stop(s) + 1..])
  }

  lemma StopIs(s: string, q: nat)
    requires q < |s| && (s[q] == '\n' || s[q] == '\0') && forall k :: 0 <= k < q ==> s[k] != '\n' && s[k] != '\0'
    ensures Stop(s) == q
  {
  }

  /** The first line of a text is found in every part that holds its newline. */
  lemma StopPrefix(s: string, n: nat)
    requires n <= |s|
    ensures Stop(s) < n ==> Stop(s[..n]) == Stop(s)
    ensures HasLine(s[..n]) ==> HasLine(s) && Stop(s) == Stop(s[..n]) < n
    ensures Stop(s) >= n || !HasLine(s) ==> !HasLine(s[..n])
  {
    if Stop(s[..n]) < n { StopIs(s, Stop(s[..n])); }
    if Stop(s) < n { StopIs(s[..n], Stop(s)); }
  }

  /** strchr(buf + p, '\n'), where a NUL stands at m or before. */
  method Strchr(buf: array<char>, p: nat, m: nat) returns (q: nat, found: bool)
    requires p <= m < buf.Length && buf[m] == '\0'
    ensures found <==> HasLine(buf[p..m])
    ensures found ==> p <= q < m && q == p + Stop(buf[p..m]) && buf[q] == '\n'
  {
    q := p;
    while buf[q] != '\n' && buf[q] != '\0'
      invariant p <= q <= m && forall k :: p <= k < q ==> buf[k] != '\n' && buf[k] != '\0'
      decreases m - q
    {
      q := q + 1;
    }
    found := buf[q] == '\n';
    if q < m { StopIs(buf[p..m], q - p); }
  }

  /** One line, from p to the newline at q: its NUL for the matcher is not taken back unless it is
      printed. */
  method PrintLine(re: string, buf: array<char>, p: nat, q: nat) returns (out: string)
    requires p <= q < buf.Length && buf[q] == '\n'
    modifies buf
    ensures out == if Matches(re, old(buf[p..q])) then old(buf[p..q + 1]) else ""
    ensures forall k :: 0 <= k < buf.Length && k != q ==> buf[k] == old(buf[k])
  {
    buf[q] := '\0';
    assert buf[p..q] == old(buf[p..q]);
    var r := Match(re, buf[p..q]);
    out := "";
    if r {
      buf[q] := '\n';
      assert buf[p..q + 1] == old(buf[p..q + 1]);
      out := buf[p..q + 1];
    }
  }

  /** Where the loop over the lines stands: out was printed, p begins the next line. */
  ghost predicate Printing(re: string, rest: string, m: nat, p: nat, out: string)
  {
    p <= m <= |rest| && m < BUFSIZE && out + Printed(re, rest[p..]) == Printed(re, rest)
  }

  lemma PrintingStarts(re: string, rest: string, m: nat)
    requires m <= |rest| && m < BUFSIZE
    ensures Printing(re, rest, m, 0, "")
  {
    assert rest[0..] == rest;
  }

  lemma Associative(x: string, y: string, z: string)
    ensures (x + y) + z == x + (y + z)
  {
  }

  lemma Slice2(s: string, p: nat, q: nat)
    requires p <= q <= |s|
    ensures s[p..][..q - p] == s[p..q]
  {
  }

  lemma PrintingMore(re: string, rest: string, m: nat, p: nat, q: nat, out: string, line: string)
    requires Printing(re, rest, m, p, out) && HasLine(rest[p..m]) && q == p + Stop(rest[p..m])
    requires line == if Matches(re, rest[p..q]) then rest[p..q + 1] else ""
    ensures Printing(re, rest, m, q + 1, out + line)
  {
    hide Printed, Matches, HasLine, Stop;
    LineAt(re, rest, p, m);
    assert Printed(re, rest[p..]) == line + Printed(re, rest[q + 1..]) by {
      Slice2(rest, p, q);
      Slice2(rest, p, q + 1);
    }
    Associative(out, line, Printed(re, rest[q + 1..]));
  }

  /** The loop over the lines in the buffer: p is where the unfinished line begins. */
  method PrintLines(re: string, buf: array<char>, m: nat, ghost rest: string) returns (out: string, p: nat)
    requires buf.Length == BUFSIZE && m < BUFSIZE && buf[m] == '\0' && m <= |rest| && buf[..m] == rest[..m]
    modifies buf
    ensures p <= m && buf[p..m] == rest[p..m] && !HasLine(rest[p..m]) && Printing(re, rest, m, p, out)
  {
    hide Printing, Printed, Stop, Matches, HasLine;
    out, p := "", 0;
    PrintingStarts(re, rest, m);
    while true
      invariant p <= m && buf[m] == '\0' && Printing(re, rest, m, p, out)
      invariant forall k :: p <= k < m ==> buf[k] == rest[k]
      decreases m - p
    {
      assert buf[p..m] == rest[p..m];
      var q, found := Strchr(buf, p, m);
      if !found {
        return;
      }
      assert buf[p..q] == rest[p..q] && buf[q] == '\n' && buf[p..q + 1] == rest[p..q + 1];
      var line := PrintLine(re, buf, p, q);
      PrintingMore(re, rest, m, p, q, out, line);
      out := out + line;
      p := q + 1;
    }
  }

  lemma DropDrop(s: string, p: nat, n: nat)
    requires p + n <= |s|
    ensures s[p..][n..] == s[p + n..]
  {
  }

  lemma LineAt(re: string, rest: string, p: nat, m: nat)
    requires p <= m <= |rest| && m < BUFSIZE && HasLine(rest[p..m])
    ensures var q := p + Stop(rest[p..m]);
      && q < m
      && Printed(re, rest[p..])
         == (if Matches(re, rest[p..][..q - p]) then rest[p..][..q - p + 1] else "") + Printed(re, rest[q + 1..])
  {
    hide Matches, Stop;
    Slice2(rest, p, m);
    StopPrefix(rest[p..], m - p);
    DropDrop(rest, p, Stop(rest[p..]) + 1);
  }

  lemma NothingMore(re: string, rest: string, m: nat)
    requires m <= |rest| && m < BUFSIZE && !HasLine(rest[..m]) && (m == BUFSIZE - 1 || m == |rest|)
    ensures Printed(re, rest) == ""
  {
    StopPrefix(rest, m);
  }

  /** Where the loop over read stands: buf[..m] is the unfinished line that begins at `start`. */
  ghost predicate Reading(re: string, input: string, start: nat, m: nat, out: string)
  {
    start + m <= |input| && m < BUFSIZE && !HasLine(input[start..start + m])
    && out + Printed(re, input[start..]) == Printed(re, input)
  }

  lemma ReadingMore(re: string, input: string, start: nat, m: nat, out: string, p: nat, more: string, m': nat)
    requires Reading(re, input, start, m, out) && start + m' <= |input|
    requires Printing(re, input[start..], m', p, more) && !HasLine(input[start..][p..m'])
    ensures Reading(re, input, start + p, m' - p, out + more)
  {
    assert input[start..][p..] == input[start + p..] && input[start..][p..m'] == input[start + p..start + m'];
    assert (out + more) + Printed(re, input[start + p..]) == out + (more + Printed(re, input[start + p..]));
  }

  lemma ReadingDone(re: string, input: string, start: nat, m: nat, out: string)
    requires Reading(re, input, start, m, out) && (m == BUFSIZE - 1 || start + m == |input|)
    ensures out == Printed(re, input)
  {
    assert input[start..][..m] == input[start..start + m];
    NothingMore(re, input[start..], m);
  }

  /** The buffer begins with the m bytes of the file from `start` on. */
  ghost predicate Buffered(buf: array<char>, input: string, start: nat, m: nat)
    reads buf
  {
    m <= buf.Length && start + m <= |input| && buf[..m] == input[start..start + m]
  }

  /** One round, after read put n bytes behind the unfinished line. */
  method Round(re: string, input: string, buf: array<char>, start: nat, m: nat, n: nat, ghost before: string)
      returns (out: string, p: nat)
    requires buf.Length == BUFSIZE && m + n < BUFSIZE && start + m + n <= |input| && Buffered(buf, input, start, m)
    requires Reading(re, input, start, m, before)
    modifies buf
    ensures p <= m + n && Buffered(buf, input, start + p, m + n - p)
    ensures Reading(re, input, start + p, m + n - p, before + out)
  {
    hide Printing, HasLine, Reading;
    Fill(buf, m, input[start + m..start + m + n]);
    buf[m + n] := '\0';
    ghost var rest := input[start..];
    assert buf[..m + n] == input[start..start + m] + input[start + m..start + m + n] == rest[..m + n];
    out, p := PrintLines(re, buf, m + n, rest);
    assert rest[p..m + n] == input[start + p..start + m + n];
    ReadingMore(re, input, start, m, before, p, out, m + n);
    Fill(buf, 0, buf[p..m + n]);
  }

  /** grep(pattern, fd): however read splits the file, the same lines are printed. */
  method GrepFile(re: string, input: string) returns (out: string)
    ensures out == Printed(re, input)
  {
    var buf := new char[BUFSIZE];
    var m: nat, start: nat := 0, 0;
    out := "";
    assert input[0..] == input && Reading(re, input, start, m, out);
    assert Buffered(buf, input, start, m);
    hide *;
    while true
      invariant m < BUFSIZE && start + m <= |input| && Buffered(buf, input, start, m)
      invariant Reading(re, input, start, m, out)
      decreases |input| - (start + m)
    {
      var n: nat := Read(BUFSIZE - m - 1, |input| - (start + m));
      if n == 0 {
        break;
      }
      var more, p := Round(re, input, buf, start, m, n, out);
      out := out + more;
      m, start := m + n - p, start + p;
    }
    ReadingDone(re, input, start, m, out);
  }

  /** The copying of read and of memmove. */
  method Fill(buf: array<char>, at: nat, bytes: string)
    requires at + |bytes| <= buf.Length
    modifies buf
    ensures buf[..at + |bytes|] == old(buf[..at]) + bytes
  {
    forall i | 0 <= i < |bytes| {
      buf[at + i] := bytes[i];
    }
  }

  /** read: at least one byte, unless there is no room or nothing left. */
  method Read(room: nat, left: nat) returns (n: nat)
    ensures n <= room && n <= left && (n == 0 ==> room == 0 || left == 0)
  {
    if room == 0 || left == 0 {
      n := 0;
    } else {
      n :| 1 <= n <= room && n <= left;
    }
  }

  // ---- Which lines are printed ----

  /** The index of the first newline. */
  function Newline(s: string): (q: nat)
    ensures q <= |s| && (q < |s| ==> s[q] == '\n') && forall k :: 0 <= k < q ==> s[k] != '\n'
  {
    if s == "" || s[0] == '\n' then 0 else 1 + Newline(s[1..])
  }

  /** The complete lines of a file, each without its newline. */
  function Lines(s: string): seq<string>
    decreases |s|
  {
    if Newline(s) == |s| then [] else [s[..Newline(s)]] + Lines(s[Newline(s) + 1..])
  }

  /** A line that grep can take in. */
  predicate Readable(line: string) { '\0' !in line && |line| < BUFSIZE - 1 }

  /** The matching ones of some lines, each with a newline. */
  ghost function Selected(re: string, lines: seq<string>): string
  {
    if lines == [] then ""
    else (if Matches(re, lines[0]) then lines[0] + "\n" else "") + Selected(re, lines[1..])
  }

  /** The number of lines before the first that is not readable. */
  function Reached(lines: seq<string>): (k: nat)
    ensures k <= |lines| && (k < |lines| ==> !Readable(lines[k])) && forall j :: 0 <= j < k ==> Readable(lines[j])
  {
    if lines == [] || !Readable(lines[0]) then 0 else 1 + Reached(lines[1..])
  }

  lemma NewlineIs(s: string, q: nat)
    requires q < |s| && s[q] == '\n' && forall k :: 0 <= k < q ==> s[k] != '\n'
    ensures Newline(s) == q
  {
  }

  /** A line is readable exactly when the loop finds its newline in the buffer. */
  lemma ReadableIff(s: string)
    ensures HasLine(s) && Stop(s) < BUFSIZE - 1 <==> Newline(s) < |s| && Readable(s[..Newline(s)])
    ensures HasLine(s) ==> Newline(s) == Stop(s)
  {
    if HasLine(s) {
      NewlineIs(s, Stop(s));
    }
    if Newline(s) < |s| && '\0' !in s[..Newline(s)] {
      var q := Newline(s);
      assert forall k :: 0 <= k < q ==> s[k] == s[..q][k];
      StopIs(s, q);
    }
  }

  /** The matching lines are printed, in order, up to the first that is not readable. */
  lemma {:induction false} PrintsReached(re: string, s: string)
    ensures Printed(re, s) == Selected(re, Lines(s)[..Reached(Lines(s))])
    decreases |s|
  {
    hide Matches, Stop, Newline, Readable, HasLine;
    ReadableIff(s);
    if HasLine(s) && Stop(s) < BUFSIZE - 1 {
      var rest := s[Stop(s) + 1..];
      var lines := Lines(rest);
      PrintsReached(re, rest);
      assert Lines(s) == [s[..Stop(s)]] + lines && Lines(s)[1..] == lines;
      var k := Reached(lines);
      assert Lines(s)[..k + 1] == [s[..Stop(s)]] + lines[..k] && Lines(s)[..k + 1][1..] == lines[..k];
      assert s[..Stop(s) + 1] == s[..Stop(s)] + "\n" by { EndsLine(s); }
    }
  }

  lemma EndsLine(s: string)
    requires HasLine(s)
    ensures s[..Stop(s) + 1] == s[..Stop(s)] + "\n"
  {
  }

  lemma {:induction false} SelectedJoin(re: string, a: seq<string>, b: seq<string>)
    ensures Selected(re, a + b) == Selected(re, a) + Selected(re, b)
  {
    hide Matches;
    if a == [] {
      assert a + b == b;
    } else {
      assert (a + b)[1..] == a[1..] + b;
      SelectedJoin(re, a[1..], b);
    }
  }

  lemma {:induction false} SelectedNone(re: string, lines: seq<string>)
    ensures Selected(re, lines) == "" <==> forall line :: line in lines ==> !Matches(re, line)
  {
    hide Matches;
    if lines != [] {
      SelectedNone(re, lines[1..]);
      assert forall line :: line in lines <==> line == lines[0] || line in lines[1..];
    }
  }

  /** Exactly the complete lines that match are printed if and only if no line matches from the first
      on that holds a NUL or has 1023 characters or more. */
  lemma PrintsAll(re: string, s: string)
    ensures Printed(re, s) == Selected(re, Lines(s))
            <==> forall line :: line in Lines(s)[Reached(Lines(s))..] ==> !Matches(re, line)
  {
    hide Matches, Lines, Printed;
    var lines := Lines(s);
    var k := Reached(lines);
    PrintsReached(re, s);
    assert lines == lines[..k] + lines[k..];
    SelectedJoin(re, lines[..k], lines[k..]);
    SelectedNone(re, lines[k..]);
  }

  /** For every pattern at once: if and only if no complete line holds a NUL or has 1023 characters or
      more. */
  lemma ShortLines(s: string)
    ensures (forall re :: Printed(re, s) == Selected(re, Lines(s)))
            <==> forall line :: line in Lines(s) ==> Readable(line)
  {
    hide Matches, Lines, Printed, Readable;
    var lines := Lines(s);
    var k := Reached(lines);
    if k == |lines| {
      forall re ensures Printed(re, s) == Selected(re, lines) { PrintsAll(re, s); }
    } else {
      PrintsAll("", s);
      EmptyMatches(lines[k]);
      assert lines[k] in lines[k..];
    }
  }

  lemma EmptyMatches(text: string)
    ensures Matches("", text)
  {
    assert text[0..] == text;
    HereNil(Parsed(""), text);
  }

  /** A NUL hides what follows: "c" is a complete line and matches, but is not printed. */
  lemma NulHidesLines()
    ensures "c" in Lines("a\0b\nc\n") && Matches("c", "c") && Printed("c", "a\0b\nc\n") == ""
  {
    var s := "a\0b\nc\n";
    hide Matches;
    StopIs(s, 1);
    NewlineIs(s, 3);
    assert s[4..] == "c\n";
    NewlineIs("c\n", 1);
    assert "c\n"[..1] == "c" && "c" in Lines("c\n");
    CMatches();
  }

  lemma CMatches()
    ensures Matches("c", "c")
  {
    assert Parsed("c") == Pattern([One('c')] + [], false);
    HereOne('c', [], false, "c");
    HereNil(Pattern([], false), "c"[1..]);
    assert "c"[0..] == "c";
  }
}
