/**
 * recorder.py and record.py: the decisions these scripts take on what the
 * helper programs hand back. `get_cmg_snid` reads the serial number out
 * of `cmg-cli`'s standard output, `det_cmg_port` picks one `/dev/ttyAMA*`
 * device, `record` judges `timeout`'s exit code, and `rot_wh_gim`,
 * `rot_wh` and `stop` give up before running anything when no port is
 * known. Both scripts carry the same `get_cmg_snid` and `det_cmg_port`,
 * modelled once here.
 *
 * Running a program becomes a `RunOutcome` parameter (what it would do if
 * started); the directory listing of `glob` becomes a sequence of paths.
 */
module Recorder {
  import opened Wrappers
  import ReadCdc

  const CMG_CLI: string := "/home/tt/.local/bin/cmg-cli"
  const READ_CDC: string := "./bin/read_cdc"
  const TAG: string := "SNID:"

  /** What a started program did: exited with a code and its captured output, ran out of time, or raised. */
  datatype RunOutcome = Exited(code: int, stdout: string) | TimedOut | Raised

  // ------------------------------------------------------------ characters

  /** Python's `str.isspace`, which is also what `\s` matches in a `str` pattern. */
  predicate IsSpace(c: char)
  {
    var n := c as int;
    n == 0x20 || 0x09 <= n <= 0x0D || 0x1C <= n <= 0x1F || n == 0x85 || n == 0xA0
    || n == 0x1680 || 0x2000 <= n <= 0x200A || n == 0x2028 || n == 0x2029
    || n == 0x202F || n == 0x205F || n == 0x3000
  }

  /** The characters at which `str.splitlines` ends a line. */
  predicate IsLineBreak(c: char)
  {
    var n := c as int;
    0x0A <= n <= 0x0D || 0x1C <= n <= 0x1E || n == 0x85 || n == 0x2028 || n == 0x2029
  }

  lemma LineBreakIsSpace(c: char)
    ensures IsLineBreak(c) ==> IsSpace(c)
  {
  }

  predicate Blank(s: string)
  {
    forall k :: 0 <= k < |s| ==> IsSpace(s[k])
  }

  /** What `(\S+)` captures: at least one character, none of them whitespace. */
  predicate Token(s: string)
  {
    |s| > 0 && forall k :: 0 <= k < |s| ==> !IsSpace(s[k])
  }

  predicate NoBreak(s: string)
  {
    forall k :: 0 <= k < |s| ==> !IsLineBreak(s[k])
  }

  /** `pat` occurs in `s` starting at index `i`. */
  predicate OccursAt(s: string, pat: string, i: nat)
  {
    i + |pat| <= |s| && s[i..i + |pat|] == pat
  }

  /** Python's `pat in s`. */
  predicate Contains(s: string, pat: string)
  {
    exists i: nat :: i <= |s| && OccursAt(s, pat, i)
  }

  // ------------------------------------------------------------ splitlines

  /** The end of the line that starts at `i`: the first line break at or after `i`, or the end. */
  function LineEnd(s: string, i: nat): (j: nat)
    requires i <= |s|
    ensures i <= j <= |s|
    ensures forall k :: i <= k < j ==> !IsLineBreak(s[k])
    ensures j == |s| || IsLineBreak(s[j])
    decreases |s| - i
  {
    if i == |s| || IsLineBreak(s[i]) then i else LineEnd(s, i + 1)
  }

  /** A `\r\n` pair is one line break, every other break character is one. */
  function BreakWidth(s: string, j: nat): nat
    requires j < |s|
  {
    if s[j] == '\r' && j + 1 < |s| && s[j + 1] == '\n' then 2 else 1
  }

  /**
   * `str.splitlines()`: the text cut at every line break, the breaks
   * dropped, and no empty line after a final break.
   */
  function SplitLines(s: string): (r: seq<string>)
    ensures forall k :: 0 <= k < |r| ==> NoBreak(r[k])
    decreases |s|
  {
    if |s| == 0 then []
    else
      var j := LineEnd(s, 0);
      if j == |s| then [s]
      else [s[..j]] + SplitLines(s[j + BreakWidth(s, j)..])
  }

  /** Text without a line break is one line, and empty text has none. */
  lemma SplitLinesOfOneLine(s: string)
    requires NoBreak(s)
    ensures SplitLines(s) == if |s| == 0 then [] else [s]
  {
    if |s| > 0 {
      LineEndAt(s, 0, |s|);
    }
  }

  /** A line followed by `\n` comes out first, ahead of the lines of the rest. */
  lemma SplitLinesCons(line: string, rest: string)
    requires NoBreak(line)
    ensures SplitLines(line + "\n" + rest) == [line] + SplitLines(rest)
  {
    var s := line + "\n" + rest;
    forall k | 0 <= k < |line|
      ensures !IsLineBreak(s[k])
    {
      assert s[k] == line[k];
    }
    assert s[|line|] == '\n';
    LineEndAt(s, 0, |line|);
    assert s[..|line|] == line;
    assert BreakWidth(s, |line|) == 1;
    assert s[|line| + 1..] == rest;
  }

  /** `LineEnd` is the only index with its two properties. */
  lemma LineEndAt(s: string, i: nat, j: nat)
    requires i <= j <= |s|
    requires forall k :: i <= k < j ==> !IsLineBreak(s[k])
    requires j == |s| || IsLineBreak(s[j])
    ensures LineEnd(s, i) == j
  {
  }

  // ------------------------------------------------------------ the SNID pattern

  /** The first index at or after `i` whose character is not whitespace (greedy `\s*`). */
  function SkipBlank(s: string, i: nat): (j: nat)
    requires i <= |s|
    ensures i <= j <= |s|
    ensures forall k :: i <= k < j ==> IsSpace(s[k])
    ensures j == |s| || !IsSpace(s[j])
    decreases |s| - i
  {
    if i == |s| || !IsSpace(s[i]) then i else SkipBlank(s, i + 1)
  }

  /** The first index at or after `i` whose character is whitespace (greedy `\S+`). */
  function TokenEnd(s: string, i: nat): (j: nat)
    requires i <= |s|
    ensures i <= j <= |s|
    ensures forall k :: i <= k < j ==> !IsSpace(s[k])
    ensures j == |s| || IsSpace(s[j])
    decreases |s| - i
  {
    if i == |s| || IsSpace(s[i]) then i else TokenEnd(s, i + 1)
  }

  /** The match of `SNID:\s*(\S+)` anchored at position `p` of the line, if any. */
  function MatchAt(line: string, p: nat): Option<string>
    requires p <= |line|
  {
    if p + |TAG| <= |line| && line[p..p + |TAG|] == TAG then
      var q := SkipBlank(line, p + |TAG|);
      var e := TokenEnd(line, q);
      if q < e then Some(line[q..e]) else None
    else None
  }

  /**
   * The pattern `SNID:\s*(\S+)` matches at `p` capturing `t`: the line from
   * `p` reads `SNID:`, whitespace, the token `t`, and then either nothing or
   * whitespace (the greedy `\S+` takes the whole token).
   */
  ghost predicate SnidAt(line: string, p: nat, t: string)
  {
    p <= |line| &&
    exists ws: string, rest: string ::
      line[p..] == TAG + ws + t + rest && Blank(ws) && Token(t) && (|rest| == 0 || IsSpace(rest[0]))
  }

  ghost predicate NoSnidAt(line: string, p: nat)
  {
    forall t :: !SnidAt(line, p, t)
  }

  /** `SkipBlank` is the only index with its two properties. */
  lemma SkipBlankUnique(s: string, i: nat, j: nat)
    requires i <= j <= |s|
    requires forall k :: i <= k < j ==> IsSpace(s[k])
    requires j == |s| || !IsSpace(s[j])
    ensures SkipBlank(s, i) == j
  {
  }

  /** `TokenEnd` is the only index with its two properties. */
  lemma TokenEndUnique(s: string, i: nat, j: nat)
    requires i <= j <= |s|
    requires forall k :: i <= k < j ==> !IsSpace(s[k])
    requires j == |s| || IsSpace(s[j])
    ensures TokenEnd(s, i) == j
  {
  }

  /** What the anchored matcher captures is a match of the pattern. */
  lemma MatchAtIsSnidAt(line: string, p: nat, t: string)
    requires p <= |line| && MatchAt(line, p) == Some(t)
    ensures SnidAt(line, p, t)
  {
    var q := SkipBlank(line, p + |TAG|);
    var e := TokenEnd(line, q);
    var ws, rest := line[p + |TAG|..q], line[e..];
    assert line[p..] == TAG + ws + t + rest;
    assert Blank(ws);
    assert Token(t);
  }

  /** Every match of the pattern is what the anchored matcher captures. */
  lemma SnidAtIsMatchAt(line: string, p: nat, t: string)
    requires SnidAt(line, p, t)
    ensures MatchAt(line, p) == Some(t)
  {
    var ws: string, rest: string :|
      line[p..] == TAG + ws + t + rest && Blank(ws) && Token(t) && (|rest| == 0 || IsSpace(rest[0]));
    PartsAreMatchAt(line, p, ws, t, rest);
  }

  lemma PartsAreMatchAt(line: string, p: nat, ws: string, t: string, rest: string)
    requires p <= |line| && line[p..] == TAG + ws + t + rest
    requires Blank(ws) && Token(t) && (|rest| == 0 || IsSpace(rest[0]))
    ensures MatchAt(line, p) == Some(t)
  {
    var q := p + |TAG| + |ws|;
    var e := q + |t|;
    assert line[p..p + |TAG|] == TAG by {
      assert line[p..p + |TAG|] == line[p..][..|TAG|];
    }
    assert line[p + |TAG|..q] == ws by {
      assert line[p + |TAG|..q] == line[p..][|TAG|..|TAG| + |ws|];
    }
    assert line[q..e] == t by {
      assert line[q..e] == line[p..][|TAG| + |ws|..|TAG| + |ws| + |t|];
    }
    assert line[e..] == rest by {
      assert line[e..] == line[p..][|TAG| + |ws| + |t|..];
    }
    forall k | p + |TAG| <= k < q
      ensures IsSpace(line[k])
    {
      assert line[k] == line[p + |TAG|..q][k - p - |TAG|];
    }
    assert line[q] == line[q..e][0];
    SkipBlankUnique(line, p + |TAG|, q);
    forall k | q <= k < e
      ensures !IsSpace(line[k])
    {
      assert line[k] == line[q..e][k - q];
    }
    if e < |line| {
      assert line[e] == line[e..][0];
    }
    TokenEndUnique(line, q, e);
  }

  /** The anchored matcher agrees with the pattern's meaning, both ways. */
  lemma MatchAtMeansSnidAt(line: string, p: nat, t: string)
    requires p <= |line|
    ensures MatchAt(line, p) == Some(t) <==> SnidAt(line, p, t)
  {
    if MatchAt(line, p) == Some(t) {
      MatchAtIsSnidAt(line, p, t);
    }
    if SnidAt(line, p, t) {
      SnidAtIsMatchAt(line, p, t);
    }
  }

  /** No match at `p` as the matcher sees it is no match at `p` as the pattern means it. */
  lemma NoMatchMeansNoSnid(line: string, p: nat)
    requires p <= |line|
    ensures MatchAt(line, p) == None <==> NoSnidAt(line, p)
  {
    if MatchAt(line, p) == None {
      forall t
        ensures !SnidAt(line, p, t)
      {
        MatchAtMeansSnidAt(line, p, t);
      }
    } else {
      MatchAtMeansSnidAt(line, p, MatchAt(line, p).value);
    }
  }

  /** `SNID:` with only whitespace after it is no match: the search goes on past it. */
  lemma BlankAfterTagIsNoMatch(line: string, p: nat)
    requires p + |TAG| <= |line| && line[p..p + |TAG|] == TAG
    requires Blank(line[p + |TAG|..])
    ensures NoSnidAt(line, p)
  {
    assert SkipBlank(line, p + |TAG|) == |line| by {
      forall k | p + |TAG| <= k < |line|
        ensures IsSpace(line[k])
      {
        assert line[k] == line[p + |TAG|..][k - p - |TAG|];
      }
      SkipBlankUnique(line, p + |TAG|, |line|);
    }
    NoMatchMeansNoSnid(line, p);
  }

  /** `re.search` on one line: the leftmost position from `p` on where the pattern matches. */
  function SearchFrom(line: string, p: nat): Option<string>
    requires p <= |line|
    decreases |line| - p
  {
    match MatchAt(line, p)
    case Some(t) => Some(t)
    case None => if p == |line| then None else SearchFrom(line, p + 1)
  }

  function LineSnid(line: string): Option<string>
  {
    SearchFrom(line, 0)
  }

  lemma {:induction false} SearchFromFinds(line: string, p: nat, t: string) returns (k: nat)
    requires p <= |line|
    requires SearchFrom(line, p) == Some(t)
    ensures p <= k <= |line| && MatchAt(line, k) == Some(t)
    ensures forall j :: p <= j < k ==> MatchAt(line, j) == None
    decreases |line| - p
  {
    if MatchAt(line, p).Some? {
      k := p;
    } else {
      k := SearchFromFinds(line, p + 1, t);
    }
  }

  lemma {:induction false} SearchFromLeftmost(line: string, p: nat, k: nat, t: string)
    requires p <= k <= |line| && MatchAt(line, k) == Some(t)
    requires forall j :: p <= j < k ==> MatchAt(line, j) == None
    ensures SearchFrom(line, p) == Some(t)
    decreases k - p
  {
    if p < k {
      SearchFromLeftmost(line, p + 1, k, t);
    }
  }

  lemma {:induction false} SearchFromMisses(line: string, p: nat)
    requires p <= |line|
    ensures SearchFrom(line, p) == None <==> forall j :: p <= j <= |line| ==> MatchAt(line, j) == None
    decreases |line| - p
  {
    if p < |line| {
      SearchFromMisses(line, p + 1);
    }
  }

  /**
   * The line's SNID is `t` exactly when the pattern matches capturing `t`
   * at some position and matches nowhere to its left.
   */
  lemma LineSnidIsLeftmost(line: string, t: string)
    ensures LineSnid(line) == Some(t) <==>
            exists p :: 0 <= p <= |line| && SnidAt(line, p, t) && forall j :: 0 <= j < p ==> NoSnidAt(line, j)
  {
    if LineSnid(line) == Some(t) {
      var p := SearchFromFinds(line, 0, t);
      MatchAtMeansSnidAt(line, p, t);
      forall j | 0 <= j < p
        ensures NoSnidAt(line, j)
      {
        NoMatchMeansNoSnid(line, j);
      }
    }
    if exists p :: 0 <= p <= |line| && SnidAt(line, p, t) && forall j :: 0 <= j < p ==> NoSnidAt(line, j) {
      var p :| 0 <= p <= |line| && SnidAt(line, p, t) && forall j :: 0 <= j < p ==> NoSnidAt(line, j);
      MatchAtMeansSnidAt(line, p, t);
      forall j | 0 <= j < p
        ensures MatchAt(line, j) == None
      {
        NoMatchMeansNoSnid(line, j);
      }
      SearchFromLeftmost(line, 0, p, t);
    }
  }

  /** A line has no SNID exactly when the pattern matches at no position. */
  lemma LineSnidMisses(line: string)
    ensures LineSnid(line) == None <==> forall p :: 0 <= p <= |line| ==> NoSnidAt(line, p)
  {
    SearchFromMisses(line, 0);
    forall p | 0 <= p <= |line|
      ensures MatchAt(line, p) == None <==> NoSnidAt(line, p)
    {
      NoMatchMeansNoSnid(line, p);
    }
  }

  /** Whatever a line yields is a whitespace-free, non-empty token that follows `SNID:` in it. */
  lemma LineSnidIsToken(line: string, t: string)
    requires LineSnid(line) == Some(t)
    ensures Token(t)
    ensures Contains(line, TAG)
  {
    var p := SearchFromFinds(line, 0, t);
    MatchAtIsSnidAt(line, p, t);
    assert OccursAt(line, TAG, p);
  }

  // ------------------------------------------------------------ get_cmg_snid

  /**
   * The loop over the output lines: a line containing `SNID:` is searched,
   * and the first capture returns; a line where the search fails does not
   * stop the loop.
   */
  function FirstSnid(lines: seq<string>): Option<string>
    decreases |lines|
  {
    if |lines| == 0 then None
    else if Contains(lines[0], TAG) && LineSnid(lines[0]).Some? then LineSnid(lines[0])
    else FirstSnid(lines[1..])
  }

  /** The `'SNID:' in line` test never hides a match: it filters only lines the search rejects anyway. */
  lemma {:induction false} FirstSnidIsFirstMatchingLine(lines: seq<string>, t: string)
    ensures FirstSnid(lines) == Some(t) <==>
            exists k :: 0 <= k < |lines| && LineSnid(lines[k]) == Some(t) && forall j :: 0 <= j < k ==> LineSnid(lines[j]) == None
    decreases |lines|
  {
    if |lines| > 0 {
      FirstSnidIsFirstMatchingLine(lines[1..], t);
      if LineSnid(lines[0]).Some? {
        LineSnidIsToken(lines[0], LineSnid(lines[0]).value);
      }
      if exists k :: 0 <= k < |lines| && LineSnid(lines[k]) == Some(t) && forall j :: 0 <= j < k ==> LineSnid(lines[j]) == None {
        var k :| 0 <= k < |lines| && LineSnid(lines[k]) == Some(t) && forall j :: 0 <= j < k ==> LineSnid(lines[j]) == None;
        if k > 0 {
          assert lines[1..][k - 1] == lines[k];
          assert forall j :: 0 <= j < k - 1 ==> LineSnid(lines[1..][j]) == None by {
            forall j | 0 <= j < k - 1
              ensures LineSnid(lines[1..][j]) == None
            {
              assert lines[1..][j] == lines[j + 1];
            }
          }
        }
      }
      if FirstSnid(lines) == Some(t) && LineSnid(lines[0]).None? {
        var k :| 0 <= k < |lines[1..]| && LineSnid(lines[1..][k]) == Some(t) && forall j :: 0 <= j < k ==> LineSnid(lines[1..][j]) == None;
        assert lines[k + 1] == lines[1..][k];
        forall j | 0 <= j < k + 1
          ensures LineSnid(lines[j]) == None
        {
          if j > 0 {
            assert lines[j] == lines[1..][j - 1];
          }
        }
      }
    }
  }

  /** Once a line has yielded the SNID, whatever follows is never looked at. */
  lemma {:induction false} FirstSnidStopsAtFirst(head: seq<string>, tail: seq<string>)
    ensures FirstSnid(head + tail) == if FirstSnid(head).Some? then FirstSnid(head) else FirstSnid(tail)
    decreases |head|
  {
    if |head| == 0 {
      assert head + tail == tail;
    } else {
      assert (head + tail)[0] == head[0];
      assert (head + tail)[1..] == head[1..] + tail;
      FirstSnidStopsAtFirst(head[1..], tail);
    }
  }

  /** Python's truth value of the `tty_dev` argument: `None` and `''` are false. */
  predicate Falsy(ttyDev: Option<string>)
  {
    ttyDev == None || ttyDev == Some("")
  }

  /** The command `get_cmg_snid` runs on a device. */
  function SnidCommand(ttyDev: string): seq<string>
  {
    [CMG_CLI, "get", "-n", "-p", ttyDev]
  }

  /**
   * `get_cmg_snid(tty_dev)`, where `reply` is what `SnidCommand(tty_dev)`
   * would do. With `check=True`, a non-zero exit raises and gives `None`,
   * as do a time-out and any other exception.
   */
  function GetCmgSnid(ttyDev: Option<string>, reply: RunOutcome): Option<string>
  {
    if Falsy(ttyDev) then None
    else match reply
      case Exited(code, out) => if code == 0 then FirstSnid(SplitLines(out)) else None
      case TimedOut => None
      case Raised => None
  }

  /** No device, no SNID, whatever the program would have answered. */
  lemma NoDeviceNoSnid(ttyDev: Option<string>, reply: RunOutcome)
    requires Falsy(ttyDev)
    ensures GetCmgSnid(ttyDev, reply) == None
  {
  }

  /**
   * With a device, the SNID is found exactly when the program exits with 0
   * and one of its output lines yields it, the lines before yielding none;
   * the SNID is then a non-empty whitespace-free token.
   */
  lemma GetCmgSnidSpec(dev: string, reply: RunOutcome, t: string)
    requires dev != ""
    ensures GetCmgSnid(Some(dev), reply) == Some(t) <==>
            reply.Exited? && reply.code == 0 &&
            exists k :: 0 <= k < |SplitLines(reply.stdout)| && LineSnid(SplitLines(reply.stdout)[k]) == Some(t) &&
              forall j :: 0 <= j < k ==> LineSnid(SplitLines(reply.stdout)[j]) == None
    ensures GetCmgSnid(Some(dev), reply) == Some(t) ==> Token(t)
  {
    if reply.Exited? && reply.code == 0 {
      var lines := SplitLines(reply.stdout);
      FirstSnidIsFirstMatchingLine(lines, t);
      if FirstSnid(lines) == Some(t) {
        var k :| 0 <= k < |lines| && LineSnid(lines[k]) == Some(t) && forall j :: 0 <= j < k ==> LineSnid(lines[j]) == None;
        LineSnidIsToken(lines[k], t);
      }
    }
  }

  /** The reply format the helper documents: the SNID line yields its token, blanks before it skipped. */
  lemma SnidReplyExample()
    ensures LineSnid("SNID:  TCM102052") == Some("TCM102052")
    ensures LineSnid("SNID:   ") == None
  {
    var line := "SNID:  TCM102052";
    assert line[0..5] == TAG;
    assert SkipBlank(line, 5) == 7 by {
      SkipBlankUnique(line, 5, 7);
    }
    assert TokenEnd(line, 7) == 16 by {
      TokenEndUnique(line, 7, 16);
    }
    assert line[7..16] == "TCM102052";
    var blank := "SNID:   ";
    assert blank[0..5] == TAG;
    BlankAfterTagIsNoMatch(blank, 0);
    LineSnidMisses(blank);
    forall p | 0 <= p <= |blank|
      ensures NoSnidAt(blank, p)
    {
      if p > 0 {
        assert MatchAt(blank, p) == None;
        NoMatchMeansNoSnid(blank, p);
      }
    }
  }

  // ------------------------------------------------------------ det_cmg_port

  /** Python's `<=` on strings: code point by code point, a proper prefix first. */
  predicate StrLe(a: string, b: string)
    decreases |a|
  {
    |a| == 0 || (|b| > 0 && (a[0] < b[0] || (a[0] == b[0] && StrLe(a[1..], b[1..]))))
  }

  lemma {:induction false} StrLeTotal(a: string, b: string)
    ensures StrLe(a, b) || StrLe(b, a)
    decreases |a|
  {
    if |a| > 0 && |b| > 0 && a[0] == b[0] {
      StrLeTotal(a[1..], b[1..]);
    }
  }

  lemma {:induction false} StrLeTransitive(a: string, b: string, c: string)
    requires StrLe(a, b) && StrLe(b, c)
    ensures StrLe(a, c)
    decreases |a|
  {
    if |a| > 0 && a[0] == b[0] && b[0] == c[0] {
      StrLeTransitive(a[1..], b[1..], c[1..]);
    }
  }

  lemma {:induction false} StrLeAntisymmetric(a: string, b: string)
    requires StrLe(a, b) && StrLe(b, a)
    ensures a == b
    decreases |a|
  {
    if |a| > 0 {
      StrLeAntisymmetric(a[1..], b[1..]);
      assert a == [a[0]] + a[1..];
      assert b == [b[0]] + b[1..];
    }
  }

  predicate Sorted(s: seq<string>)
  {
    forall k :: 0 < k < |s| ==> StrLe(s[k - 1], s[k])
  }

  /** The head of a sorted list is at most every element. */
  lemma {:induction false} SortedHeadIsLeast(s: seq<string>, k: nat)
    requires Sorted(s) && k < |s|
    ensures StrLe(s[0], s[k])
  {
    if k == 0 {
      StrLeTotal(s[0], s[0]);
    } else {
      SortedHeadIsLeast(s, k - 1);
      StrLeTransitive(s[0], s[k - 1], s[k]);
    }
  }

  /** `tty_devices.sort()`: an insertion sort that leaves a sorted permutation in place. */
  method SortPaths(a: array<string>)
    modifies a
    ensures Sorted(a[..])
    ensures multiset(a[..]) == multiset(old(a[..]))
  {
    var i := 0;
    while i < a.Length
      invariant 0 <= i <= a.Length
      invariant Sorted(a[..i])
      invariant multiset(a[..]) == multiset(old(a[..]))
    {
      InsertLast(a, i);
      i := i + 1;
    }
  }

  /** Moves `a[i]` left past every larger element, so that `a[..i + 1]` becomes sorted. */
  method InsertLast(a: array<string>, i: nat)
    requires i < a.Length && Sorted(a[..i])
    modifies a
    ensures Sorted(a[..i + 1])
    ensures multiset(a[..]) == multiset(old(a[..]))
  {
    var j := i;
    while j > 0 && !StrLe(a[j - 1], a[j])
      invariant 0 <= j <= i
      invariant forall k :: 0 < k <= i && k != j ==> StrLe(a[k - 1], a[k])
      invariant 0 < j < i ==> StrLe(a[j - 1], a[j + 1])
      invariant multiset(a[..]) == multiset(old(a[..]))
      decreases j
    {
      StrLeTotal(a[j - 1], a[j]);
      SwapDown(a, j);
      j := j - 1;
    }
  }

  /** Exchanges `a[j - 1]` and `a[j]`. */
  method SwapDown(a: array<string>, j: nat)
    requires 0 < j < a.Length
    modifies a
    ensures a[..] == old(a[..])[j - 1 := old(a[j])][j := old(a[j - 1])]
    ensures multiset(a[..]) == multiset(old(a[..]))
  {
    a[j - 1], a[j] := a[j], a[j - 1];
  }

  /**
   * `det_cmg_port` over the paths `glob` listed: `None` for no device,
   * otherwise the first path once sorted, a listed path that is at most
   * every other.
   */
  method DetCmgPort(devices: seq<string>) returns (port: Option<string>)
    ensures port == None <==> |devices| == 0
    ensures port.Some? ==> port.value in devices && forall d :: d in devices ==> StrLe(port.value, d)
  {
    if |devices| == 0 {
      return None;
    }
    var a := new string[|devices|](i requires 0 <= i < |devices| => devices[i]);
    assert a[..] == devices;
    SortPaths(a);
    assert a[0] in multiset(a[..]);
    forall d | d in devices
      ensures StrLe(a[0], d)
    {
      assert d in multiset(a[..]);
      var k :| 0 <= k < a.Length && a[k] == d;
      SortedHeadIsLeast(a[..], k);
    }
    port := Some(a[0]);
  }

  /** At most one listed path is at most every listed path, so the selection does not depend on the listing order. */
  lemma LeastPathUnique(devices: seq<string>, x: string, y: string)
    requires x in devices && y in devices
    requires forall d :: d in devices ==> StrLe(x, d)
    requires forall d :: d in devices ==> StrLe(y, d)
    ensures x == y
  {
    StrLeAntisymmetric(x, y);
  }

  // ------------------------------------------------------------ record, rot_wh_gim, rot_wh, stop

  /** What a call did: the command it ran, if any, and the boolean it returned. */
  datatype Attempt = Attempt(ran: Option<seq<string>>, ok: bool)

  /** The port argument if one was passed (even `''`), otherwise what detection found. */
  function ResolvePort(given: Option<string>, detected: Option<string>): Option<string>
  {
    if given.Some? then given else detected
  }

  /** The command `record` runs: read_cdc under `timeout`. */
  function RecordCommand(outputPath: string, duration: string, port: string): seq<string>
  {
    ["timeout", duration, READ_CDC, "-p", port, "-o", outputPath]
  }

  /**
   * `record(output_path, duration, vib_port)`: `detected` is `det_vib_port()`,
   * consulted only when no port was passed, and `outcome` what the
   * command would do. Success is `timeout` ending read_cdc, exit code 124.
   */
  function Record(outputPath: string, duration: string, given: Option<string>, detected: Option<string>,
                  outcome: RunOutcome): Attempt
  {
    match ResolvePort(given, detected)
    case None => Attempt(None, false)
    case Some(port) => Attempt(Some(RecordCommand(outputPath, duration, port)), outcome.Exited? && outcome.code == 124)
  }

  /** The CMG commands of `rot_wh_gim`, `rot_wh` and `stop`, with their speeds already formatted. */
  datatype CmgCommand =
    | RotateWheelGimbal(wheelSpeed: string, gimbalSpeed: string)
    | RotateWheel(wheelSpeed: string, gimbalAngle: string)
    | Idle

  function CmgArgv(cmd: CmgCommand, port: string): seq<string>
  {
    match cmd
    case RotateWheelGimbal(w, g) => [CMG_CLI, "set", "--cmg", w + "," + g, "-p", port]
    case RotateWheel(w, a) => [CMG_CLI, "set", "--rw", w + "," + a, "-p", port]
    case Idle => [CMG_CLI, "set", "--idle", "-p", port]
  }

  /**
   * `rot_wh_gim`, `rot_wh` and `stop`: `detected` is `det_cmg_port()`,
   * consulted only when no port was passed. With `check=True` only exit
   * code 0 is success.
   */
  function CmgCall(cmd: CmgCommand, given: Option<string>, detected: Option<string>, outcome: RunOutcome): Attempt
  {
    match ResolvePort(given, detected)
    case None => Attempt(None, false)
    case Some(port) => Attempt(Some(CmgArgv(cmd, port)), outcome.Exited? && outcome.code == 0)
  }

  /** `record` succeeds exactly when it ran read_cdc and `timeout` exited with 124; any other code fails. */
  lemma RecordOkIffTimeoutCode(outputPath: string, duration: string, given: Option<string>,
                               detected: Option<string>, outcome: RunOutcome)
    ensures Record(outputPath, duration, given, detected, outcome).ok <==>
            ResolvePort(given, detected).Some? && outcome.Exited? && outcome.code == 124
  {
  }

  /** With no port passed and none detected, every call gives up without running a command. */
  lemma NoPortNoCommand(cmd: CmgCommand, outputPath: string, duration: string, outcome: RunOutcome)
    ensures Record(outputPath, duration, None, None, outcome) == Attempt(None, false)
    ensures CmgCall(cmd, None, None, outcome) == Attempt(None, false)
  {
  }

  /** A passed port is used as it is, and detection is not consulted. */
  lemma GivenPortWins(cmd: CmgCommand, outputPath: string, duration: string, port: string,
                      detected: Option<string>, outcome: RunOutcome)
    ensures Record(outputPath, duration, Some(port), detected, outcome).ran == Some(RecordCommand(outputPath, duration, port))
    ensures CmgCall(cmd, Some(port), detected, outcome).ran == Some(CmgArgv(cmd, port))
  {
  }

  /** A CMG command succeeds exactly when it ran and exited with 0. */
  lemma CmgOkIffZeroExit(cmd: CmgCommand, given: Option<string>, detected: Option<string>, outcome: RunOutcome)
    ensures CmgCall(cmd, given, detected, outcome).ok <==>
            CmgCall(cmd, given, detected, outcome).ran.Some? && outcome.Exited? && outcome.code == 0
  {
  }

  /** The command `record` runs makes read_cdc read the chosen port and write the requested file. */
  lemma RecordDrivesReadCdc(outputPath: string, duration: string, port: string)
    ensures RecordCommand(outputPath, duration, port)[2] == READ_CDC
    ensures ReadCdc.ParseArgs(RecordCommand(outputPath, duration, port)[3..]) == Some(ReadCdc.Args(port, outputPath))
  {
    var args := RecordCommand(outputPath, duration, port)[3..];
    assert args == ["-p", port, "-o", outputPath];
    assert args[2..] == ["-o", outputPath];
    assert args[2..][2..] == [];
    assert "-o" != "-p" by {
      assert "-o"[1] != "-p"[1];
    }
    calc {
      ReadCdc.ParseArgs(args);
      ReadCdc.Scan(args[2..], ReadCdc.Defaults.(ttyDev := port));
      ReadCdc.Scan(args[2..][2..], ReadCdc.Defaults.(ttyDev := port).(csvFile := outputPath));
    }
  }
}
