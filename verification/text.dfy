/** Character classes, case mapping, whitespace splitting and substring search
    over Python strings, written as sequences of Unicode scalar values. */
module Text {
  import opened Seqs

  /** Python's `str.isspace()` (the class behind `\s` and `str.split()`),
      restricted to the ASCII and Latin-1 characters. */
  predicate IsSpace(c: char)
  {
    || ('\t' <= c && c <= '\r')
    || ('\U{1C}' <= c && c <= ' ')
    || c == '\U{85}' || c == '\U{A0}'
  }

  predicate NotSpace(c: char)
  {
    !IsSpace(c)
  }

  /** The ASCII decimal digits, the class `\d` covers in this model. */
  predicate IsDigit(c: char)
  {
    '0' <= c <= '9'
  }

  /** The class `[a-zA-Z]`. */
  predicate IsAsciiLetter(c: char)
  {
    'a' <= c <= 'z' || 'A' <= c <= 'Z'
  }

  predicate IsUpperLetter(c: char)
  {
    'A' <= c <= 'Z' || ('\U{C0}' <= c <= '\U{DE}' && c != '\U{D7}')
  }

  predicate IsLowerLetter(c: char)
  {
    'a' <= c <= 'z' || ('\U{E0}' <= c <= '\U{FE}' && c != '\U{F7}')
  }

  /** `str.lower()` on one character: A-Z and the Latin-1 capitals move 32 code points up. */
  function LowerChar(c: char): (d: char)
    ensures !IsUpperLetter(d)
    ensures IsAsciiLetter(d) <==> IsAsciiLetter(c)
  {
    if IsUpperLetter(c) then (c as int + 32) as char else c
  }

  /** `str.upper()` on one character: a-z and the Latin-1 small letters move 32 code points down. */
  function UpperChar(c: char): (d: char)
    ensures !IsLowerLetter(d)
    ensures d == '$' <==> c == '$'
  {
    if IsLowerLetter(c) then (c as int - 32) as char else c
  }

  /** Case-folding either way and then lowering gives the same character. */
  lemma LowerOfUpperChar(c: char)
    ensures LowerChar(UpperChar(c)) == LowerChar(c)
  {
  }

  function Lower(s: string): (r: string)
    ensures |r| == |s|
    ensures forall i :: 0 <= i < |s| ==> r[i] == LowerChar(s[i])
  {
    seq(|s|, i requires 0 <= i < |s| => LowerChar(s[i]))
  }

  function Upper(s: string): (r: string)
    ensures |r| == |s|
    ensures forall i :: 0 <= i < |s| ==> r[i] == UpperChar(s[i])
  {
    seq(|s|, i requires 0 <= i < |s| => UpperChar(s[i]))
  }

  /** Lowering twice is lowering once. */
  lemma LowerIdempotent(s: string)
    ensures Lower(Lower(s)) == Lower(s)
  {
    assert forall i :: 0 <= i < |s| ==> LowerChar(LowerChar(s[i])) == LowerChar(s[i]);
  }

  /** Uppering twice is uppering once. */
  lemma UpperIdempotent(s: string)
    ensures Upper(Upper(s)) == Upper(s)
  {
    assert forall i :: 0 <= i < |s| ==> UpperChar(UpperChar(s[i])) == UpperChar(s[i]);
  }

  /** Length of the run of non-whitespace characters that starts `s`. */
  function WordLength(s: string): (n: nat)
    requires |s| > 0 && !IsSpace(s[0])
    ensures 1 <= n <= |s|
    ensures forall k :: 0 <= k < n ==> !IsSpace(s[k])
    ensures n == |s| || IsSpace(s[n])
    decreases |s|
  {
    if |s| == 1 || IsSpace(s[1]) then 1 else 1 + WordLength(s[1..])
  }

  /** `str.split()` with no separator: the runs of non-whitespace characters, in order. */
  function Words(s: string): (r: seq<string>)
    ensures forall k :: 0 <= k < |r| ==> |r[k]| > 0
    ensures forall k, m :: 0 <= k < |r| && 0 <= m < |r[k]| ==> !IsSpace(r[k][m])
    decreases |s|
  {
    if s == [] then []
    else if IsSpace(s[0]) then Words(s[1..])
    else
      var n := WordLength(s);
      [s[..n]] + Words(s[n..])
  }

  /** The words laid end to end. */
  function Concat(ws: seq<string>): string
  {
    if ws == [] then [] else ws[0] + Concat(ws[1..])
  }

  /** Splitting loses exactly the whitespace: the words, joined, are the
      non-whitespace characters of the input in order. */
  lemma {:induction false} WordsCoverNonSpace(s: string)
    ensures Concat(Words(s)) == Keep(s, NotSpace)
    decreases |s|
  {
    if s == [] {
    } else if IsSpace(s[0]) {
      WordsCoverNonSpace(s[1..]);
      LeadingSpaceDropped(s);
    } else {
      var n := WordLength(s);
      WordsCoverNonSpace(s[n..]);
      LeadingWordKept(s);
      ConcatCons(s[..n], Words(s[n..]));
    }
  }

  /** A leading whitespace character contributes nothing to the kept characters. */
  lemma LeadingSpaceDropped(s: string)
    requires s != [] && IsSpace(s[0])
    ensures Keep(s, NotSpace) == Keep(s[1..], NotSpace)
  {
    assert s == [s[0]] + s[1..];
    KeepAppend([s[0]], s[1..], NotSpace);
    assert Keep([s[0]], NotSpace) == [];
  }

  /** A leading word is kept whole, ahead of the rest. */
  lemma LeadingWordKept(s: string)
    requires s != [] && !IsSpace(s[0])
    ensures Keep(s, NotSpace) == s[..WordLength(s)] + Keep(s[WordLength(s)..], NotSpace)
  {
    var n := WordLength(s);
    assert s == s[..n] + s[n..];
    KeepAppend(s[..n], s[n..], NotSpace);
    KeepAll(s[..n], NotSpace);
  }

  /** Joining a word in front of a list of words. */
  lemma ConcatCons(w: string, ws: seq<string>)
    ensures Concat([w] + ws) == w + Concat(ws)
  {
    assert ([w] + ws)[0] == w && ([w] + ws)[1..] == ws;
  }

  /** The split loop written as a left-to-right scan: a non-whitespace
      character extends the current word, and whitespace or the end of the
      input closes it if it is non-empty. `acc` holds the words closed so far. */
  function SplitScan(s: string, cur: string, acc: seq<string>): seq<string>
    decreases |s|
  {
    if s == [] then (if cur == [] then acc else acc + [cur])
    else if IsSpace(s[0]) then SplitScan(s[1..], [], if cur == [] then acc else acc + [cur])
    else SplitScan(s[1..], cur + [s[0]], acc)
  }

  /** `Words` splits where the scan does: no split inside a run of
      non-whitespace characters, and a split at every whitespace run. */
  lemma WordsAsScan(s: string)
    ensures Words(s) == SplitScan(s, [], [])
  {
    ScanWords(s, [], []);
  }

  /** The scan, started with a pending word `cur`, closes the words already
      in `acc`, then `cur` joined to the word that starts `s`, then the rest
      of the words of `s`. */
  lemma {:induction false} ScanWords(s: string, cur: string, acc: seq<string>)
    ensures cur == [] ==> SplitScan(s, cur, acc) == acc + Words(s)
    ensures cur != [] && (s == [] || IsSpace(s[0])) ==> SplitScan(s, cur, acc) == acc + [cur] + Words(s)
    ensures cur != [] && s != [] && !IsSpace(s[0]) ==>
              SplitScan(s, cur, acc) == acc + [cur + s[..WordLength(s)]] + Words(s[WordLength(s)..])
    decreases |s|
  {
    if s == [] {
    } else if IsSpace(s[0]) {
      ScanWords(s[1..], [], if cur == [] then acc else acc + [cur]);
    } else {
      ScanWords(s[1..], cur + [s[0]], acc);
      if WordLength(s) == 1 {
        ScanShortWord(s, cur, acc);
      } else {
        ScanLongWord(s, cur, acc);
      }
    }
  }

  /** A one-character word: the scan closes it at the next character. */
  lemma ScanShortWord(s: string, cur: string, acc: seq<string>)
    requires s != [] && !IsSpace(s[0]) && WordLength(s) == 1
    requires SplitScan(s[1..], cur + [s[0]], acc) == acc + [cur + [s[0]]] + Words(s[1..])
    ensures cur == [] ==> SplitScan(s, cur, acc) == acc + Words(s)
    ensures cur != [] ==> SplitScan(s, cur, acc) == acc + [cur + s[..1]] + Words(s[1..])
  {
    assert s[..1] == [s[0]];
    assert Words(s) == [[s[0]]] + Words(s[1..]);
    if cur == [] {
      assert cur + [s[0]] == [s[0]];
    }
  }

  /** A longer word: the scan carries on into the rest of it. */
  lemma ScanLongWord(s: string, cur: string, acc: seq<string>)
    requires s != [] && !IsSpace(s[0]) && WordLength(s) > 1
    requires SplitScan(s[1..], cur + [s[0]], acc) ==
               acc + [cur + [s[0]] + s[1..][..WordLength(s[1..])]] + Words(s[1..][WordLength(s[1..])..])
    ensures cur == [] ==> SplitScan(s, cur, acc) == acc + Words(s)
    ensures cur != [] ==> SplitScan(s, cur, acc) == acc + [cur + s[..WordLength(s)]] + Words(s[WordLength(s)..])
  {
    var n := WordLength(s);
    assert WordLength(s[1..]) == n - 1;
    assert s[1..][..n - 1] == s[1..n] && s[1..][n - 1..] == s[n..];
    assert cur + [s[0]] + s[1..n] == cur + s[..n];
    assert Words(s) == [s[..n]] + Words(s[n..]);
    if cur == [] {
      assert cur + s[..n] == s[..n];
      assert acc + [s[..n]] + Words(s[n..]) == acc + Words(s);
    }
  }

  /** `k` occurs in `s` starting at position i. */
  predicate OccursAt(s: string, k: string, i: int)
  {
    0 <= i && i + |k| <= |s| && s[i..i + |k|] == k
  }

  /** Python's substring operator `k in s`. */
  predicate Contains(s: string, k: string)
  {
    exists i :: 0 <= i <= |s| && OccursAt(s, k, i)
  }
}
