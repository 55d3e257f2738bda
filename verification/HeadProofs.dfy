/** Parsing a head that arrives in pieces agrees with parsing it whole. */
module HeadProofs {

  import opened Bytes
  import opened Heads

  // ----- an outcome depends only on the bytes that were looked at -----

  ghost predicate Agree(s: seq<Byte>, t: seq<Byte>, n: nat) {
    n <= |s| && n <= |t| && s[..n] == t[..n]
  }

  /** How many bytes a definite outcome looked at: up to `ahead` bytes behind what it took, or all of
      them when it failed. */
  ghost function Seen<T>(s: seq<Byte>, r: Parse<T>, ahead: nat): nat {
    if r.Ok? then r.next + ahead else |s|
  }

  lemma AgreeLess(s: seq<Byte>, t: seq<Byte>, n: nat, m: nat)
    requires Agree(s, t, n) && m <= n
    ensures Agree(s, t, m)
  {
    assert s[..m] == s[..n][..m] && t[..m] == t[..n][..m];
  }

  lemma AgreeAt(s: seq<Byte>, t: seq<Byte>, n: nat, i: nat)
    requires Agree(s, t, n) && i < n
    ensures s[i] == t[i]
  {
    assert s[..n][i] == t[..n][i];
  }

  lemma AgreeSlice(s: seq<Byte>, t: seq<Byte>, n: nat, i: nat, j: nat)
    requires Agree(s, t, n) && i <= j <= n
    ensures s[i..j] == t[i..j]
  {
    assert s[i..j] == s[..n][i..j] && t[i..j] == t[..n][i..j];
  }

  lemma {:induction false} ScanAgrees(s: seq<Byte>, t: seq<Byte>, i: nat, stop: Stop)
    requires i <= |s| && Scan(s, i, stop) < |s| && Agree(s, t, Scan(s, i, stop) + 1)
    ensures i <= |t| && Scan(t, i, stop) == Scan(s, i, stop)
    decreases |s| - i
  {
    AgreeAt(s, t, Scan(s, i, stop) + 1, i);
    if !Stops(stop, s[i]) {
      ScanAgrees(s, t, i + 1, stop);
    }
  }

  lemma EndOfLineAgrees(s: seq<Byte>, t: seq<Byte>, i: nat)
    requires i <= |s|
    requires var r := EndOfLine(s, i); !r.Partial? && Agree(s, t, Seen(s, r, 0))
    ensures i <= |t| && EndOfLine(t, i) == EndOfLine(s, i)
  {
    var r := EndOfLine(s, i);
    AgreeAt(s, t, Seen(s, r, 0), i);
    if s[i] == CR {
      AgreeAt(s, t, Seen(s, r, 0), i + 1);
    }
  }

  lemma TokenAgrees(s: seq<Byte>, t: seq<Byte>, i: nat, closing: Byte)
    requires i <= |s|
    requires var r := Token(s, i, closing); !r.Partial? && Agree(s, t, Seen(s, r, 1))
    ensures i <= |t| && Token(t, i, closing) == Token(s, i, closing)
  {
    var j := Scan(s, i, NotToken);
    AgreeLess(s, t, Seen(s, Token(s, i, closing), 1), j + 1);
    ScanAgrees(s, t, i, NotToken);
    AgreeAt(s, t, j + 1, j);
    AgreeSlice(s, t, j + 1, i, j);
  }

  lemma SkipAgrees(s: seq<Byte>, t: seq<Byte>, i: nat, stop: Stop)
    requires i <= |s|
    requires var r := Skip(s, i, stop); !r.Partial? && Agree(s, t, Seen(s, r, 1))
    ensures i <= |t| && Skip(t, i, stop) == Skip(s, i, stop)
  {
    ScanAgrees(s, t, i, stop);
  }

  lemma PathAgrees(s: seq<Byte>, t: seq<Byte>, i: nat)
    requires i <= |s|
    requires var r := Path(s, i); !r.Partial? && Agree(s, t, Seen(s, r, 1))
    ensures i <= |t| && Path(t, i) == Path(s, i)
  {
    var j := Scan(s, i, PathEnd);
    AgreeLess(s, t, Seen(s, Path(s, i), 1), j + 1);
    ScanAgrees(s, t, i, PathEnd);
    AgreeAt(s, t, j + 1, j);
    AgreeSlice(s, t, j + 1, i, j);
  }

  lemma VersionAgrees(s: seq<Byte>, t: seq<Byte>, i: nat)
    requires i <= |s|
    requires var r := Version(s, i); !r.Partial? && Agree(s, t, Seen(s, r, 1))
    ensures i <= |t| && Version(t, i) == Version(s, i)
  {
    var n := Seen(s, Version(s, i), 1);
    AgreeSlice(s, t, n, i, i + 7);
    AgreeAt(s, t, n, i + 7);
  }

  lemma ValueAgrees(s: seq<Byte>, t: seq<Byte>, i: nat)
    requires i <= |s|
    requires var r := Value(s, i); !r.Partial? && Agree(s, t, Seen(s, r, 0))
    ensures i <= |t| && Value(t, i) == Value(s, i)
  {
    hide Trim;
    var j := Scan(s, i, Control);
    var n := Seen(s, Value(s, i), 0);
    AgreeLess(s, t, n, j + 1);
    ScanAgrees(s, t, i, Control);
    EndOfLineAgrees(s, t, j);
    AgreeSlice(s, t, n, i, j);
  }

  lemma NamedHeaderAgrees(s: seq<Byte>, t: seq<Byte>, i: nat)
    requires i <= |s|
    requires var r := NamedHeader(s, i); !r.Partial? && Agree(s, t, Seen(s, r, 0))
    ensures i <= |t| && NamedHeader(t, i) == NamedHeader(s, i)
  {
    hide Token, Skip, Value;
    var n := Seen(s, NamedHeader(s, i), 0);
    var a := Token(s, i, COLON);
    AgreeLess(s, t, n, Seen(s, a, 1));
    TokenAgrees(s, t, i, COLON);
    if a.Ok? && a.value != [] {
      var b := Skip(s, a.next + 1, NotBlank);
      AgreeLess(s, t, n, Seen(s, b, 1));
      SkipAgrees(s, t, a.next + 1, NotBlank);
      if b.Ok? {
        ValueAgrees(s, t, b.next);
      }
    }
  }

  lemma HeaderLineAgrees(s: seq<Byte>, t: seq<Byte>, i: nat, first: bool)
    requires i < |s|
    requires var r := HeaderLine(s, i, first); !r.Partial? && Agree(s, t, Seen(s, r, 0))
    ensures i < |t| && HeaderLine(t, i, first) == HeaderLine(s, i, first)
  {
    hide NamedHeader, Value;
    AgreeAt(s, t, Seen(s, HeaderLine(s, i, first), 0), i);
    if !first && IsBlank(s[i]) {
      ValueAgrees(s, t, i);
    } else {
      NamedHeaderAgrees(s, t, i);
    }
  }

  lemma {:induction false} HeadersAgree(s: seq<Byte>, t: seq<Byte>, i: nat, count: nat)
    requires i <= |s|
    requires var r := Headers(s, i, count); !r.Partial? && Agree(s, t, Seen(s, r, 0))
    ensures i <= |t| && Headers(t, i, count) == Headers(s, i, count)
    decreases |s| - i
  {
    hide HeaderLine, EndOfLine;
    var n := Seen(s, Headers(s, i, count), 0);
    AgreeAt(s, t, n, i);
    if StartsLineEnd(s[i]) {
      EndOfLineAgrees(s, t, i);
    } else if count != MAX_HEADERS {
      var a := HeaderLine(s, i, count == 0);
      AgreeLess(s, t, n, Seen(s, a, 0));
      HeaderLineAgrees(s, t, i, count == 0);
      if a.Ok? {
        HeadersAgree(s, t, a.next, count + 1);
      }
    }
  }

  lemma TargetAgrees(s: seq<Byte>, t: seq<Byte>, i: nat)
    requires i <= |s|
    requires var r := Target(s, i); !r.Partial? && Agree(s, t, Seen(s, r, 1))
    ensures i <= |t| && Target(t, i) == Target(s, i)
  {
    hide Token, Skip, Path;
    var n := Seen(s, Target(s, i), 1);
    var a := Token(s, i, SP);
    AgreeLess(s, t, n, Seen(s, a, 1));
    TokenAgrees(s, t, i, SP);
    if a.Ok? {
      var b := Skip(s, a.next + 1, NotSpace);
      AgreeLess(s, t, n, Seen(s, b, 1));
      SkipAgrees(s, t, a.next + 1, NotSpace);
      if b.Ok? {
        var c := Path(s, b.next);
        AgreeLess(s, t, n, Seen(s, c, 1));
        PathAgrees(s, t, b.next);
        if c.Ok? {
          var d := Skip(s, c.next + 1, NotSpace);
          AgreeLess(s, t, n, Seen(s, d, 1));
          SkipAgrees(s, t, c.next + 1, NotSpace);
        }
      }
    }
  }

  lemma RequestLineAgrees(s: seq<Byte>, t: seq<Byte>, i: nat)
    requires i <= |s|
    requires var r := RequestLine(s, i); !r.Partial? && Agree(s, t, Seen(s, r, 0))
    ensures i <= |t| && RequestLine(t, i) == RequestLine(s, i)
  {
    hide Target, Version, EndOfLine;
    var n := Seen(s, RequestLine(s, i), 0);
    var a := Target(s, i);
    AgreeLess(s, t, n, Seen(s, a, 1));
    TargetAgrees(s, t, i);
    if a.Ok? {
      var b := Version(s, a.next);
      AgreeLess(s, t, n, Seen(s, b, 1));
      VersionAgrees(s, t, a.next);
      if b.Ok? {
        EndOfLineAgrees(s, t, b.next);
      }
    }
  }

  /** A definite outcome of the head parser depends only on the bytes it took, or, when it failed, on
      the bytes there were. */
  lemma HeadAgrees(s: seq<Byte>, t: seq<Byte>)
    requires !Head(s).Partial? && Agree(s, t, Seen(s, Head(s), 0))
    ensures Head(t) == Head(s)
  {
    hide RequestLine, Headers, EndOfLine;
    var n := Seen(s, Head(s), 0);
    AgreeAt(s, t, n, 0);
    var a := EmptyLine(s);
    if StartsLineEnd(s[0]) {
      AgreeLess(s, t, n, Seen(s, a, 0));
      EndOfLineAgrees(s, t, 0);
    }
    if a.Ok? {
      var b := RequestLine(s, a.next);
      AgreeLess(s, t, n, Seen(s, b, 0));
      RequestLineAgrees(s, t, a.next);
      if b.Ok? {
        HeadersAgree(s, t, b.next, 0);
      }
    }
  }

  /** More bytes never change an outcome. */
  lemma HeadIsStable(s: seq<Byte>, t: seq<Byte>)
    requires s <= t && !Head(s).Partial?
    ensures Head(t) == Head(s)
  {
    hide Head;
    AgreeLess(s, t, |s|, Seen(s, Head(s), 0));
    HeadAgrees(s, t);
  }

  /** An accepted head is accepted from its own bytes alone, and from no fewer. */
  lemma HeadIsTight(s: seq<Byte>, m: nat)
    requires Head(s).Ok? && m <= |s|
    ensures m >= Head(s).next ==> Head(s[..m]) == Head(s)
    ensures m < Head(s).next ==> Head(s[..m]).Partial?
  {
    hide Head;
    if m >= Head(s).next {
      assert s[..m][..Head(s).next] == s[..Head(s).next];
      HeadAgrees(s, s[..m]);
    } else if !Head(s[..m]).Partial? {
      HeadIsStable(s[..m], s);
    }
  }

  // ----- carriage returns -----

  /** From `i` up to `j` every carriage return is followed by a line feed. */
  ghost predicate Clean(s: seq<Byte>, i: nat, j: nat) {
    i <= j <= |s| && forall k :: i <= k < j && s[k] == CR ==> k + 1 < j && s[k + 1] == LF
  }

  lemma CleanJoins(s: seq<Byte>, i: nat, j: nat, k: nat)
    requires Clean(s, i, j) && Clean(s, j, k)
    ensures Clean(s, i, k)
  {
  }

  lemma ScanIsClean(s: seq<Byte>, i: nat, stop: Stop)
    requires i <= |s|
    ensures Clean(s, i, Scan(s, i, stop))
  {
    forall k | i <= k < Scan(s, i, stop) ensures s[k] != CR {
      assert !Stops(stop, s[k]);
    }
  }

  lemma EndOfLineIsClean(s: seq<Byte>, i: nat)
    requires i <= |s| && EndOfLine(s, i).Ok?
    ensures Clean(s, i, EndOfLine(s, i).next)
  {
  }

  lemma ValueIsClean(s: seq<Byte>, i: nat)
    requires i <= |s| && Value(s, i).Ok?
    ensures Clean(s, i, Value(s, i).next)
  {
    hide Clean;
    var j := Scan(s, i, Control);
    ScanIsClean(s, i, Control);
    EndOfLineIsClean(s, j);
    CleanJoins(s, i, j, Value(s, i).next);
  }

  lemma OneByteIsClean(s: seq<Byte>, i: nat)
    requires i < |s| && s[i] != CR
    ensures Clean(s, i, i + 1)
  {
  }

  lemma TokenIsClean(s: seq<Byte>, i: nat, closing: Byte)
    requires i <= |s| && Token(s, i, closing).Ok? && closing != CR
    ensures Clean(s, i, Token(s, i, closing).next + 1)
  {
    hide Clean;
    ScanIsClean(s, i, NotToken);
    var j := Token(s, i, closing).next;
    OneByteIsClean(s, j);
    CleanJoins(s, i, j, j + 1);
  }

  lemma PathIsClean(s: seq<Byte>, i: nat)
    requires i <= |s| && Path(s, i).Ok?
    ensures Clean(s, i, Path(s, i).next + 1)
  {
    hide Clean;
    ScanIsClean(s, i, PathEnd);
    var j := Path(s, i).next;
    OneByteIsClean(s, j);
    CleanJoins(s, i, j, j + 1);
  }

  lemma HeaderLineIsClean(s: seq<Byte>, i: nat, first: bool)
    requires i < |s| && HeaderLine(s, i, first).Ok?
    ensures Clean(s, i, HeaderLine(s, i, first).next)
  {
    hide Clean, Value, Token, Scan;
    if !first && IsBlank(s[i]) {
      ValueIsClean(s, i);
    } else {
      var j := Token(s, i, COLON).next + 1;
      TokenIsClean(s, i, COLON);
      var k := Skip(s, j, NotBlank).next;
      ScanIsClean(s, j, NotBlank);
      CleanJoins(s, i, j, k);
      ValueIsClean(s, k);
      CleanJoins(s, i, k, HeaderLine(s, i, first).next);
    }
  }

  /** A line end at `t` takes the input to `n`. */
  ghost predicate EndsLineAt(s: seq<Byte>, t: nat, n: nat) {
    t <= |s| && EndOfLine(s, t).Ok? && EndOfLine(s, t).next == n
  }

  /** The header part is clean and ends with an empty line, which starts at `t` behind a line feed. */
  lemma {:induction false} HeadersEnd(s: seq<Byte>, i: nat, count: nat) returns (t: nat)
    requires 0 < i <= |s| && s[i - 1] == LF && Headers(s, i, count).Ok?
    ensures var n := Headers(s, i, count).next;
      Clean(s, i, n) && i <= t < n && s[t - 1] == LF && StartsLineEnd(s[t]) && EndsLineAt(s, t, n)
    decreases |s| - i
  {
    hide Clean, HeaderLine, EndOfLine;
    var n := Headers(s, i, count).next;
    if StartsLineEnd(s[i]) {
      EndOfLineIsClean(s, i);
      t := i;
    } else {
      var j := HeaderLine(s, i, count == 0).next;
      HeaderLineIsClean(s, i, count == 0);
      t := HeadersEnd(s, j, count + 1);
      CleanJoins(s, i, j, n);
    }
  }

  lemma TargetIsClean(s: seq<Byte>, i: nat)
    requires i <= |s| && Target(s, i).Ok?
    ensures Clean(s, i, Target(s, i).next)
  {
    hide Clean, Token, Path, Scan;
    var j := Token(s, i, SP).next + 1;
    TokenIsClean(s, i, SP);
    var k := Skip(s, j, NotSpace).next;
    ScanIsClean(s, j, NotSpace);
    CleanJoins(s, i, j, k);
    var l := Path(s, k).next + 1;
    PathIsClean(s, k);
    CleanJoins(s, i, k, l);
    ScanIsClean(s, l, NotSpace);
    CleanJoins(s, i, l, Target(s, i).next);
  }

  lemma VersionIsClean(s: seq<Byte>, i: nat)
    requires i <= |s| && Version(s, i).Ok?
    ensures Clean(s, i, Version(s, i).next)
  {
    forall k | i <= k < i + 8 ensures s[k] != CR {
      if k < i + 7 {
        assert s[k] == s[i..i + 7][k - i] == VERSION[k - i];
      }
    }
  }

  lemma RequestLineIsClean(s: seq<Byte>, i: nat)
    requires i <= |s| && RequestLine(s, i).Ok?
    ensures Clean(s, i, RequestLine(s, i).next)
  {
    hide Clean, Target, Version, EndOfLine;
    var m := Target(s, i).next;
    var v := Version(s, m).next;
    TargetIsClean(s, i);
    VersionIsClean(s, m);
    CleanJoins(s, i, m, v);
    EndOfLineIsClean(s, v);
    CleanJoins(s, i, v, RequestLine(s, i).next);
  }

  /** In an accepted head every carriage return precedes a line feed, and two line ends close it. */
  lemma HeadEnds(s: seq<Byte>) returns (t: nat)
    requires Head(s).Ok?
    ensures var n := Head(s).next;
      Clean(s, 0, n) && 0 < t < n && s[t - 1] == LF && StartsLineEnd(s[t]) && EndsLineAt(s, t, n)
  {
    hide Clean, RequestLine, Headers, EndOfLine;
    var i := EmptyLine(s).next;
    var j := RequestLine(s, i).next;
    if StartsLineEnd(s[0]) {
      EndOfLineIsClean(s, 0);
    } else {
      NothingIsClean(s, 0);
    }
    RequestLineIsClean(s, i);
    CleanJoins(s, 0, i, j);
    t := HeadersEnd(s, j, 0);
    var n := Headers(s, j, 0).next;
    assert Head(s).next == n;
    CleanJoins(s, 0, j, n);
  }

  lemma NothingIsClean(s: seq<Byte>, i: nat)
    requires i <= |s|
    ensures Clean(s, i, i)
  {
  }

  // ----- the shortcut -----

  /** Started before the last line end of a head, the shortcut finds that the head is complete. */
  lemma {:induction false} TwoEndsFinds(s: seq<Byte>, p: nat, count: nat, t: nat, n: nat)
    requires p < t < n <= |s| && Clean(s, p, n) && count <= 1
    requires s[t - 1] == LF && StartsLineEnd(s[t]) && EndsLineAt(s, t, n)
    ensures TwoEnds(s, p, count).Ok?
    decreases t - p
  {
    if StartsLineEnd(s[p]) {
      var q := EndOfLine(s, p).next;
      assert q <= t;
      if count == 0 && q < t {
        TwoEndsFinds(s, q, 1, t, n);
      }
    } else {
      assert p + 1 < t;
      TwoEndsFinds(s, p + 1, 0, t, n);
    }
  }

  /** Every carriage return seen so far is followed by a line feed or is the last byte. */
  ghost predicate CleanSoFar(s: seq<Byte>) {
    forall k :: 0 <= k < |s| - 1 && s[k] == CR ==> s[k + 1] == LF
  }

  lemma {:induction false} TwoEndsWaits(s: seq<Byte>, p: nat, count: nat)
    requires p <= |s| && CleanSoFar(s)
    ensures !TwoEnds(s, p, count).Fail?
    decreases |s| - p
  {
    if p < |s| {
      if !StartsLineEnd(s[p]) {
        TwoEndsWaits(s, p + 1, 0);
      } else if EndOfLine(s, p).Ok? {
        TwoEndsWaits(s, EndOfLine(s, p).next, count + 1);
      }
    }
  }

  /** A read that completes a head is recognised, with the same result as a parse from scratch. */
  lemma ShortcutAccepts(s: seq<Byte>, last: nat)
    requires last <= |s| && (last == 0 || Head(s[..last]).Partial?)
    ensures Head(s).Ok? || HeadSince(s, last).Ok? ==> HeadSince(s, last) == Head(s)
  {
    hide Head, Clean, TwoEnds, EndOfLine;
    if Head(s).Ok? && last > 0 {
      HeadIsTight(s, last);
      var t := HeadEnds(s);
      var n, p := Head(s).next, if last < 3 then 0 else last - 3;
      EndOfLineIsShort(s, t);
      assert n <= t + 2;
      assert last < n <= t + 2;
      CleanTail(s, 0, p, n);
      TwoEndsFinds(s, p, 0, t, n);
    }
  }

  lemma EndOfLineIsShort(s: seq<Byte>, i: nat)
    requires i <= |s| && EndOfLine(s, i).Ok?
    ensures EndOfLine(s, i).next <= i + 2
  {
  }

  lemma CleanTail(s: seq<Byte>, i: nat, p: nat, n: nat)
    requires Clean(s, i, n) && i <= p <= n
    ensures Clean(s, p, n)
  {
  }

  /** While a head that will be accepted is unfinished, the shortcut waits too. */
  lemma ShortcutWaits(s: seq<Byte>, last: nat, t: seq<Byte>)
    requires last <= |s| && s <= t && Head(s).Partial? && Head(t).Ok?
    ensures HeadSince(s, last).Partial?
  {
    hide Head, Clean, TwoEnds, EndOfLine, CleanSoFar;
    if last > 0 {
      assert t[..|s|] == s;
      HeadIsTight(t, |s|);
      var _ := HeadEnds(t);
      CleanPrefix(s, t, Head(t).next);
      TwoEndsWaits(s, if last < 3 then 0 else last - 3, 0);
    }
  }

  lemma CleanPrefix(s: seq<Byte>, t: seq<Byte>, n: nat)
    requires s <= t && |s| <= n && Clean(t, 0, n)
    ensures CleanSoFar(s)
  {
    forall k | 0 <= k < |s| - 1 && s[k] == CR ensures s[k + 1] == LF {
      assert t[k] == s[k] && t[k + 1] == s[k + 1];
    }
  }

  // ----- whole runs of reads -----

  /** The lengths of the buffer after the reads that follow. */
  ghost predicate Rising(cuts: seq<nat>, last: nat, n: nat) {
    && (forall k :: 0 <= k < |cuts| ==> last <= cuts[k] <= n)
    && (forall j, k :: 0 <= j <= k < |cuts| ==> cuts[j] <= cuts[k])
  }

  /** Read until the outcome is definite, each time with the shortcut: the outcome, and at which read. */
  ghost function Session(s: seq<Byte>, cuts: seq<nat>, last: nat): (r: (nat, Parse<Request>))
    requires Rising(cuts, last, |s|)
  {
    if cuts == [] then (0, Partial)
    else
      var r := HeadSince(s[..cuts[0]], last);
      if !r.Partial? then (0, r)
      else
        var rest := Session(s, cuts[1..], cuts[0]);
        (rest.0 + 1, rest.1)
  }

  /** The same reads, each parsed from scratch. */
  ghost function Scratch(s: seq<Byte>, cuts: seq<nat>): (r: (nat, Parse<Request>))
    requires Rising(cuts, 0, |s|)
    ensures r.0 <= |cuts| && (r.1.Ok? ==> r.0 < |cuts| && Head(s[..cuts[r.0]]) == r.1)
  {
    if cuts == [] then (0, Partial)
    else
      var r := Head(s[..cuts[0]]);
      if !r.Partial? then (0, r)
      else
        var rest := Scratch(s, cuts[1..]);
        (rest.0 + 1, rest.1)
  }

  /** A head found malformed is never accepted later. */
  lemma {:induction false} FailedStaysFailed(s: seq<Byte>, cuts: seq<nat>, last: nat)
    requires last <= |s| && Rising(cuts, last, |s|) && Head(s[..last]).Fail?
    ensures !Session(s, cuts, last).1.Ok?
    decreases |cuts|
  {
    hide Head, TwoEnds;
    if cuts != [] {
      assert s[..last] <= s[..cuts[0]];
      HeadIsStable(s[..last], s[..cuts[0]]);
      FailedStaysFailed(s, cuts[1..], cuts[0]);
    }
  }

  /** Over any segmentation, the shortcut accepts exactly when parsing from scratch accepts, at the same
      read, with the same length and fields. */
  lemma {:induction false} SessionsAgree(s: seq<Byte>, cuts: seq<nat>, last: nat)
    requires last <= |s| && Rising(cuts, last, |s|) && Rising(cuts, 0, |s|)
    requires last == 0 || Head(s[..last]).Partial?
    ensures Session(s, cuts, last).1.Ok? || Scratch(s, cuts).1.Ok? ==> Session(s, cuts, last) == Scratch(s, cuts)
    decreases |cuts|
  {
    hide Head, HeadSince;
    if cuts != [] {
      var now := s[..cuts[0]];
      assert now[..last] == s[..last];
      ShortcutAccepts(now, last);
      if Head(now).Fail? {
        FailedStaysFailed(s, cuts[1..], cuts[0]);
      } else if Head(now).Partial? {
        var rest := Scratch(s, cuts[1..]);
        if rest.1.Ok? {
          assert now <= s[..cuts[1..][rest.0]];
          ShortcutWaits(now, last, s[..cuts[1..][rest.0]]);
        }
        SessionsAgree(s, cuts[1..], cuts[0]);
      }
    }
  }
}
