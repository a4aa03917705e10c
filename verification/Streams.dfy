/** The character stream with push-back, the sorted operator table, and the tokenizer that works on them. */
module Streams {
  import opened Syntax
  import opened Lexing

  // ---------------------------------------------------------------- the sorted table

  predicate Less(a: string, b: string)
  {
    b != [] && (a == [] || a[0] < b[0] || (a[0] == b[0] && Less(a[1..], b[1..])))
  }

  predicate Sorted(t: seq<string>) { forall i, j :: 0 <= i < j < |t| ==> !Less(t[j], t[i]) }

  function Insert(w: string, t: seq<string>): (r: seq<string>)
    ensures multiset(r) == multiset(t) + multiset{w}
  {
    if t == [] then [w]
    else if Less(t[0], w) then
      assert t == [t[0]] + t[1..];
      [t[0]] + Insert(w, t[1..])
    else [w] + t
  }

  /** What the constructor of the lookup table makes of its entries. */
  function Sort(t: seq<string>): (r: seq<string>)
    ensures multiset(r) == multiset(t)
  {
    if t == [] then [] else
      assert t == [t[0]] + t[1..];
      Insert(t[0], Sort(t[1..]))
  }

  lemma {:induction false} LessFlips(a: string, b: string)
    requires Less(a, b)
    ensures !Less(b, a)
  {
    if a != [] && a[0] == b[0] { LessFlips(a[1..], b[1..]); }
  }

  lemma {:induction false} LessThrough(a: string, b: string, c: string)
    requires !Less(b, a) && !Less(c, b)
    ensures !Less(c, a)
  {
    if Less(c, a) && c != [] && c[0] == a[0] {
      if b != [] && b[0] == a[0] { LessThrough(a[1..], b[1..], c[1..]); }
    }
  }

  lemma {:induction false} Member(w: string, t: seq<string>, r: seq<string>)
    requires multiset(r) == multiset(t)
    ensures w in r <==> w in t
  {
    assert w in r <==> w in multiset(r);
    assert w in t <==> w in multiset(t);
  }

  lemma {:induction false} InsertSorted(w: string, t: seq<string>)
    requires Sorted(t)
    ensures Sorted(Insert(w, t))
  {
    var r := Insert(w, t);
    if t != [] && Less(t[0], w) {
      InsertSorted(w, t[1..]);
      LessFlips(t[0], w);
      forall j | 0 < j < |r| ensures !Less(r[j], r[0]) {
        assert r[j] in Insert(w, t[1..]);
        Member(r[j], t[1..] + [w], Insert(w, t[1..]));
        if r[j] != w { assert r[j] in t[1..]; }
      }
    } else if t != [] {
      forall j | 0 < j < |r| ensures !Less(r[j], r[0]) {
        if j > 1 { LessThrough(w, t[0], t[j - 1]); }
      }
    }
  }

  lemma {:induction false} SortSorted(t: seq<string>)
    ensures Sorted(Sort(t))
  {
    if t != [] {
      SortSorted(t[1..]);
      InsertSorted(t[0], Sort(t[1..]));
    }
  }

  // ---------------------------------------------------------------- narrowing

  /** The entries that begin with p are those from lo to hi. */
  predicate Range(t: seq<string>, lo: nat, hi: nat, p: string)
  {
    lo <= hi <= |t| && forall i :: 0 <= i < |t| ==> (p <= t[i] <==> lo <= i < hi)
  }

  /** The first entry that does not come before the character at place k. */
  function LowerBound(t: seq<string>, lo: nat, hi: nat, k: nat, c: char): (r: nat)
    requires lo <= hi <= |t|
    ensures lo <= r <= hi && (forall i :: lo <= i < r ==> |t[i]| <= k || t[i][k] < c)
    ensures r < hi ==> |t[r]| > k && t[r][k] >= c
    decreases hi - lo
  {
    if lo < hi && (|t[lo]| <= k || t[lo][k] < c) then LowerBound(t, lo + 1, hi, k, c) else lo
  }

  /** The first entry that comes after the character at place k. */
  function UpperBound(t: seq<string>, lo: nat, hi: nat, k: nat, c: char): (r: nat)
    requires lo <= hi <= |t|
    ensures lo <= r <= hi && (forall i :: lo <= i < r ==> |t[i]| <= k || t[i][k] <= c)
    ensures r < hi ==> |t[r]| > k && t[r][k] > c
    decreases hi - lo
  {
    if lo < hi && !(|t[lo]| > k && c < t[lo][k]) then UpperBound(t, lo + 1, hi, k, c) else lo
  }

  /** Behind a common beginning a sorted table is sorted by the next character, the beginning itself first. */
  lemma {:induction false} NextSorted(a: string, b: string, p: string)
    requires p <= a && p <= b && !Less(b, a)
    ensures |a| > |p| ==> |b| > |p| && a[|p|] <= b[|p|]
  {
    if p != [] { NextSorted(a[1..], b[1..], p[1..]); }
  }

  lemma {:induction false} BoundsBetween(t: seq<string>, lo: nat, hi: nat, p: string, c: char, i: nat)
    requires Sorted(t) && Range(t, lo, hi, p) && lo <= i < hi
    ensures var k := |p|;
      LowerBound(t, lo, hi, k, c) <= i < UpperBound(t, lo, hi, k, c) <==> |t[i]| > k && t[i][k] == c
  {
    var k := |p|;
    var r, u := LowerBound(t, lo, hi, k, c), UpperBound(t, lo, hi, k, c);
    if r <= i && r < i { NextSorted(t[r], t[i], p); }
    if u <= i && u < i { NextSorted(t[u], t[i], p); }
  }

  /** Narrowing to the entries whose next character fits. */
  lemma {:induction false} Narrowed(t: seq<string>, lo: nat, hi: nat, p: string, c: char)
    requires Sorted(t) && Range(t, lo, hi, p)
    ensures var r, u := LowerBound(t, lo, hi, |p|, c), UpperBound(t, lo, hi, |p|, c);
      (r < u ==> Range(t, r, u, p + [c])) && (r >= u ==> forall i :: 0 <= i < |t| ==> !(p + [c] <= t[i]))
  {
    var r, u := LowerBound(t, lo, hi, |p|, c), UpperBound(t, lo, hi, |p|, c);
    forall i | 0 <= i < |t| ensures p + [c] <= t[i] <==> r <= i < u {
      assert p + [c] <= t[i] <==> p <= t[i] && |t[i]| > |p| && t[i][|p|] == c;
      if lo <= i < hi { BoundsBetween(t, lo, hi, p, c, i); }
    }
  }

  /** If the beginning itself is an entry, it is the first of the range. */
  lemma {:induction false} ExactFirst(t: seq<string>, lo: nat, hi: nat, p: string)
    requires Sorted(t) && Range(t, lo, hi, p) && lo < hi
    ensures p in t <==> t[lo] == p
  {
    if p in t {
      var i :| 0 <= i < |t| && t[i] == p;
      if i > lo { NextSorted(t[lo], t[i], p); }
    }
  }

  // ---------------------------------------------------------------- the stream

  /** Without the end marks at the end: what a stream delivers before it delivers end marks only. */
  function Strip(s: string): string
  {
    if s == [] then [] else if s[|s| - 1] == END_OF_FILE then Strip(s[..|s| - 1]) else s
  }

  /** No end marks at the end. */
  predicate Stripped(s: string) { s != [] ==> s[|s| - 1] != END_OF_FILE }

  lemma {:induction false} StripEnds(s: string)
    ensures var r := Strip(s); r <= s && Stripped(r) && forall i :: |r| <= i < |s| ==> s[i] == END_OF_FILE
  {
    if s != [] && s[|s| - 1] == END_OF_FILE {
      StripEnds(s[..|s| - 1]);
      forall i | |Strip(s)| <= i < |s| ensures s[i] == END_OF_FILE {
        if i < |s| - 1 { assert s[i] == s[..|s| - 1][i]; }
      }
    }
  }

  function Drop(s: string, k: nat): string { if k <= |s| then s[k..] else [] }

  lemma {:induction false} StripIs(s: string, r: string)
    requires r <= s && Stripped(r) && forall i :: |r| <= i < |s| ==> s[i] == END_OF_FILE
    ensures Strip(s) == r
  {
    if s != [] && |r| < |s| {
      assert s[|s| - 1] == END_OF_FILE;
      StripIs(s[..|s| - 1], r);
    } else if s != [] {
      assert r == s;
    }
  }

  lemma {:induction false} StripTail(s: string)
    requires s != []
    ensures Strip(s[1..]) == Drop(Strip(s), 1) && At(Strip(s), 0) == s[0]
  {
    var r := Drop(Strip(s), 1);
    StripEnds(s);
    assert r <= s[1..];
    forall i | |r| <= i < |s[1..]| ensures s[1..][i] == END_OF_FILE { assert s[1..][i] == s[i + 1]; }
    StripIs(s[1..], r);
  }

  lemma {:induction false} StripCons(c: char, s: string)
    ensures Strip([c] + s) == if Strip(s) == [] && c == END_OF_FILE then [] else [c] + Strip(s)
  {
    var r := if Strip(s) == [] && c == END_OF_FILE then [] else [c] + Strip(s);
    StripEnds(s);
    forall i | |r| <= i < |[c] + s| ensures ([c] + s)[i] == END_OF_FILE {
      if i > 0 { assert ([c] + s)[i] == s[i - 1]; }
    }
    StripIs([c] + s, r);
  }

  function Lines(s: string): nat
  {
    if s == [] then 0 else Lines(s[..|s| - 1]) + if s[|s| - 1] == '\n' then 1 else 0
  }

  lemma {:induction false} LinesMore(s: string, c: char)
    ensures Lines(s + [c]) == Lines(s) + if c == '\n' then 1 else 0
  {
    assert (s + [c])[..|s|] == s;
  }

  class PushBackStream {
    const input: string
    var pos: nat
    var stack: string          // the character to come first stands first
    var line: int
    var index: int

    /** What is still to be read. */
    ghost var ahead: string

    ghost predicate Valid()
      reads this
    {
      pos <= |input| && ahead == Strip(stack + input[pos..])
    }

    constructor (input: string)
      ensures Valid() && this.input == input && ahead == Strip(input) && line == 0 && index == 0
    {
      this.input := input;
      pos, stack, line, index, ahead := 0, [], 0, 0, Strip(input);
      new;
      assert [] + input[0..] == input;
    }

    method Read() returns (c: char)
      requires Valid()
      modifies this
      ensures Valid() && c == At(old(ahead), 0) && ahead == Drop(old(ahead), 1)
      ensures index == old(index) + 1 && line == old(line) + if c == '\n' then 1 else 0
    {
      ghost var s := stack + input[pos..];
      if stack != [] {
        c, stack := stack[0], stack[1..];
        assert s[1..] == stack + input[pos..];
        StripTail(s);
      } else if pos < |input| {
        c, pos := input[pos], pos + 1;
        assert s[1..] == stack + input[pos..];
        StripTail(s);
      } else {
        c := END_OF_FILE;
        assert s == [];
      }
      ahead := Drop(ahead, 1);
      if c == '\n' { line := line + 1; }
      index := index + 1;
    }

    method PushBack(c: char)
      requires Valid()
      modifies this
      ensures Valid() && ahead == if old(ahead) == [] && c == END_OF_FILE then [] else [c] + old(ahead)
      ensures index == old(index) - 1 && line == old(line) - if c == '\n' then 1 else 0
    {
      StripCons(c, stack + input[pos..]);
      assert [c] + stack + input[pos..] == [c] + (stack + input[pos..]);
      stack := [c] + stack;
      ahead := if ahead == [] && c == END_OF_FILE then [] else [c] + ahead;
      if c == '\n' { line := line - 1; }
      index := index - 1;
    }
  }

  /** A stream has no end marks at the end of what is ahead. */
  lemma {:induction false} AheadStripped(stream: PushBackStream)
    requires stream.Valid()
    ensures Stripped(stream.ahead)
  {
    StripEnds(stream.stack + stream.input[stream.pos..]);
  }

  /** Takes the character after the first k of a text. */
  method TakeNext(stream: PushBackStream, ghost s: string, ghost k: nat) returns (c: char)
    requires stream.Valid() && stream.ahead == Drop(s, k)
    modifies stream
    ensures stream.Valid() && stream.ahead == Drop(s, k + 1) && c == At(s, k)
  {
    DropNext(s, k);
    c := stream.Read();
  }

  /** Gives back the character after the first k of a text. */
  method GiveBack(stream: PushBackStream, c: char, ghost s: string, ghost k: nat)
    requires stream.Valid() && stream.ahead == Drop(s, k + 1) && c == At(s, k) && Stripped(s)
    modifies stream
    ensures stream.Valid() && stream.ahead == Drop(s, k)
  {
    DropBack(s, k);
    stream.PushBack(c);
  }

  // ---------------------------------------------------------------- maximal munch

  /** chars are the next characters of the text s, end marks behind its end. */
  predicate Taken(chars: string, s: string) { forall i :: 0 <= i < |chars| ==> chars[i] == At(s, i) }

  /** m is the length of the longest entry that begins the text and is no longer than k. */
  predicate LongestUpTo(t: seq<string>, s: string, k: nat, m: nat)
  {
    m <= k && (m > 0 ==> m <= |s| && s[..m] in t) && forall w :: w in t && w <= s && |w| <= k ==> |w| <= m
  }

  predicate Plain(t: seq<string>) { forall i :: 0 <= i < |t| ==> t[i] != [] && END_OF_FILE !in t[i] }

  lemma {:induction false} LongestIs(t: seq<string>, s: string, k: nat, m: nat)
    requires LongestUpTo(t, s, k, m) && forall w :: w in t && w <= s ==> |w| <= k
    ensures Longest(t, s) == m
  {
    var n := Longest(t, s);
    if n > 0 { assert s[..n] <= s; }
    if m > 0 { assert s[..m] <= s; }
  }

  /** An entry that the characters taken make up begins the text. */
  lemma {:induction false} ExactBegins(w: string, s: string)
    requires Taken(w, s) && END_OF_FILE !in w
    ensures w <= s
  {
    forall i | 0 <= i < |w| ensures i < |s| && w[i] == s[i] {
      assert w[i] in w;
      assert w[i] == At(s, i);
    }
    if w != [] {
      var k := |w| - 1;
      assert w[k] in w;
      assert w[k] == At(s, k);
    }
  }

  lemma {:induction false} Beginnings(p: string, w: string, s: string)
    requires Taken(p, s) && w <= s && |p| <= |w|
    ensures p <= w
  {
    forall i | 0 <= i < |p| ensures p[i] == w[i] { assert p[i] == At(s, i); }
  }

  /** One more character taken. */
  lemma {:induction false} MunchStep(t: seq<string>, s: string, p: string, c: char, m: nat)
    requires Plain(t) && LongestUpTo(t, s, |p|, m) && Taken(p, s) && c == At(s, |p|)
    ensures Taken(p + [c], s)
    ensures LongestUpTo(t, s, |p| + 1, if p + [c] in t then |p| + 1 else m)
  {
    var q := p + [c];
    if q in t {
      ExactBegins(q, s);
      assert s[..|q|] == q;
    }
    forall w | w in t && w <= s && |w| <= |q| ensures |w| <= if q in t then |q| else m {
      if |w| == |q| {
        Beginnings(q, w, s);
        assert w == q;
      }
    }
  }

  lemma {:induction false} NoneLonger(t: seq<string>, s: string, p: string)
    requires Taken(p, s) && NoneBegins(t, p)
    ensures forall w :: w in t && w <= s ==> |w| <= |p|
  {
    forall w | w in t && w <= s ensures |w| <= |p| {
      if |p| <= |w| { Beginnings(p, w, s); }
    }
  }

  function Widest(t: seq<string>): (n: nat)
    ensures forall i :: 0 <= i < |t| ==> |t[i]| <= n
  {
    if t == [] then 0 else
      var n := Widest(t[1..]);
      assert forall i :: 0 < i < |t| ==> t[i] == t[1..][i - 1];
      if |t[0]| > n then |t[0]| else n
  }

  lemma {:induction false} DropNext(s: string, k: nat)
    ensures Drop(Drop(s, k), 1) == Drop(s, k + 1) && At(Drop(s, k), 0) == At(s, k)
  {}

  lemma {:induction false} DropBack(s: string, k: nat)
    requires Stripped(s)
    ensures Drop(s, k) == if Drop(s, k + 1) == [] && At(s, k) == END_OF_FILE then [] else [At(s, k)] + Drop(s, k + 1)
  {}

  predicate NoneBegins(t: seq<string>, p: string) { forall i :: 0 <= i < |t| ==> !(p <= t[i]) }

  /** The entries left after taking p. */
  predicate Candidates(t: seq<string>, lo: nat, hi: nat, p: string)
  {
    lo <= hi <= |t| && (lo < hi ==> Range(t, lo, hi, p)) && (lo == hi ==> NoneBegins(t, p))
  }

  lemma {:induction false} CandidatesNext(t: seq<string>, lo: nat, hi: nat, p: string, c: char)
    requires Sorted(t) && Candidates(t, lo, hi, p) && lo < hi
    ensures var r, u := LowerBound(t, lo, hi, |p|, c), UpperBound(t, lo, hi, |p|, c);
      var u' := if r < u then u else r;
      Candidates(t, r, u', p + [c]) && (p + [c] in t <==> r < u' && |t[r]| == |p| + 1)
  {
    var r, u := LowerBound(t, lo, hi, |p|, c), UpperBound(t, lo, hi, |p|, c);
    Narrowed(t, lo, hi, p, c);
    if r < u {
      ExactFirst(t, r, u, p + [c]);
      assert p + [c] <= t[r];
    } else {
      forall i | 0 <= i < |t| ensures t[i] != p + [c] { assert !(p + [c] <= t[i]); }
    }
  }

  lemma {:induction false} CandidateLength(t: seq<string>, lo: nat, hi: nat, p: string)
    requires Candidates(t, lo, hi, p) && lo < hi
    ensures |p| <= Widest(t)
  {
    assert p <= t[lo];
  }

  lemma {:induction false} MunchDone(t: seq<string>, s: string, p: string, m: nat)
    requires Taken(p, s) && LongestUpTo(t, s, |p|, m) && NoneBegins(t, p)
    ensures Longest(t, s) == m
  {
    NoneLonger(t, s, p);
    LongestIs(t, s, |p|, m);
  }

  /** The state of a stream from which k characters of the text s were taken. */
  ghost predicate Consumed(stream: PushBackStream, s: string, k: nat, chars: string, index: int, line: int)
    reads stream
  {
    && stream.Valid() && stream.ahead == Drop(s, k) && |chars| == k
    && stream.index == index + k && stream.line == line + Lines(chars)
  }

  /** Takes characters while table entries begin with them, and remembers the longest entry passed. */
  method Munch(table: seq<string>, stream: PushBackStream) returns (chars: string, size: nat)
    requires stream.Valid() && Sorted(table) && Plain(table)
    modifies stream
    ensures size == Longest(table, old(stream.ahead)) && size <= |chars|
    ensures Taken(chars, old(stream.ahead))
    ensures Consumed(stream, old(stream.ahead), |chars|, chars, old(stream.index), old(stream.line))
  {
    ghost var s := stream.ahead;
    var lo: nat, hi: nat := 0, |table|;
    size, chars := 0, [];
    while lo < hi
      invariant Candidates(table, lo, hi, chars) && Taken(chars, s) && LongestUpTo(table, s, |chars|, size)
      invariant Consumed(stream, s, |chars|, chars, old(stream.index), old(stream.line))
      decreases Widest(table) + 1 - |chars|
    {
      CandidateLength(table, lo, hi, chars);
      DropNext(s, |chars|);
      var c := stream.Read();
      CandidatesNext(table, lo, hi, chars, c);
      MunchStep(table, s, chars, c, size);
      LinesMore(chars, c);
      var k := |chars|;
      lo, hi := LowerBound(table, lo, hi, k, c), UpperBound(table, lo, hi, k, c);
      if hi < lo { hi := lo; }
      chars := chars + [c];
      if lo < hi && |table[lo]| == k + 1 { size := k + 1; }
    }
    MunchDone(table, s, chars, size);
  }

  /** Takes the longest operator from the stream: through beginnings that are no operators, and leaving the
      stream and its counters right behind the operator, or as they were if there is none. */
  method GetOperator(table: seq<string>, stream: PushBackStream) returns (found: Option<string>)
    requires stream.Valid() && Sorted(table) && Plain(table)
    modifies stream
    ensures stream.Valid()
    ensures var s, n := old(stream.ahead), Longest(table, old(stream.ahead));
      && found == (if n > 0 then Some(s[..n]) else None) && stream.ahead == s[n..]
      && stream.index == old(stream.index) + n && stream.line == old(stream.line) + Lines(s[..n])
  {
    ghost var s := stream.ahead;
    AheadStripped(stream);
    var chars, size := Munch(table, stream);
    PushBackAll(stream, chars, size, s, stream.index - |chars|, stream.line - Lines(chars));
    assert chars[..size] == s[..size];
    found := if size > 0 then Some(chars[..size]) else None;
  }

  /** Gives back all characters but the first ones. */
  method PushBackAll(stream: PushBackStream, taken: string, size: nat, ghost s: string, ghost index: int, ghost line: int)
    requires Stripped(s) && size <= |taken| && Taken(taken, s) && Consumed(stream, s, |taken|, taken, index, line)
    modifies stream
    ensures Consumed(stream, s, size, taken[..size], index, line)
  {
    var m := |taken|;
    assert taken[..m] == taken;
    while m > size
      invariant size <= m <= |taken| && Consumed(stream, s, m, taken[..m], index, line)
    {
      m := m - 1;
      PushBackOne(stream, taken, m, s, index, line);
    }
  }

  method PushBackOne(stream: PushBackStream, taken: string, m: nat, ghost s: string, ghost index: int, ghost line: int)
    requires Stripped(s) && m < |taken| && Taken(taken, s) && Consumed(stream, s, m + 1, taken[..m + 1], index, line)
    modifies stream
    ensures Consumed(stream, s, m, taken[..m], index, line)
  {
    DropBack(s, m);
    LinesMore(taken[..m], taken[m]);
    assert taken[..m] + [taken[m]] == taken[..m + 1];
    stream.PushBack(taken[m]);
  }

  // ---------------------------------------------------------------- the operator table

  lemma {:induction false} PlainEntry(w: string)
    requires w in OPERATORS
    ensures w != [] && END_OF_FILE !in w
  {
    if w in ARITHMETIC { PlainArithmetic(w); } else if w in ASSIGNMENTS { PlainAssignment(w); }
  }

  lemma {:induction false} PlainArithmetic(w: string)
    requires w in ARITHMETIC
    ensures w != [] && END_OF_FILE !in w
  {}

  lemma {:induction false} PlainAssignment(w: string)
    requires w in ASSIGNMENTS
    ensures w != [] && END_OF_FILE !in w
  {}

  lemma {:induction false} LongestSame(t: seq<string>, u: seq<string>, s: string)
    requires forall w :: w in t <==> w in u
    ensures Longest(t, s) == Longest(u, s)
  {
    var m, n := Longest(t, s), Longest(u, s);
    if m > 0 { assert s[..m] <= s; }
    if n > 0 { assert s[..n] <= s; }
  }

  /** Sorting makes a table fit for the search and does not change what is found. */
  lemma {:induction false} SortFits(t: seq<string>, s: string)
    requires Plain(t)
    ensures Sorted(Sort(t)) && Plain(Sort(t)) && Longest(Sort(t), s) == Longest(t, s)
  {
    var r := Sort(t);
    SortSorted(t);
    forall w ensures w in r <==> w in t { Member(w, t, r); }
    forall i | 0 <= i < |r| ensures r[i] != [] && END_OF_FILE !in r[i] {
      assert r[i] in r;
      var k :| 0 <= k < |t| && t[k] == r[i];
    }
    LongestSame(r, t, s);
  }

  lemma {:induction false} PlainOperators()
    ensures Plain(OPERATORS)
  {
    forall i | 0 <= i < |OPERATORS| ensures OPERATORS[i] != [] && END_OF_FILE !in OPERATORS[i] { PlainEntry(OPERATORS[i]); }
  }

  /** The table is sorted and finds what the entries themselves say. */
  ghost predicate Fits(table: seq<string>, entries: seq<string>)
  {
    Sorted(table) && Plain(table) && forall s :: Longest(table, s) == Longest(entries, s)
  }

  lemma {:induction false} SortedFits(t: seq<string>)
    requires Plain(t)
    ensures Fits(Sort(t), t)
  {
    SortFits(t, []);
    forall s ensures Longest(Sort(t), s) == Longest(t, s) { SortFits(t, s); }
  }

  /** The lookup table of the operators. */
  method OperatorTable() returns (table: seq<string>)
    ensures Fits(table, OPERATORS)
  {
    PlainOperators();
    table := SortTable(OPERATORS);
  }

  method SortTable(entries: seq<string>) returns (table: seq<string>)
    requires Plain(entries)
    ensures Fits(table, entries)
  {
    table := Sort(entries);
    SortedFits(entries);
  }
}
