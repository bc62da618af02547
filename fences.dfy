/**
 * The code-fence stripper of the report handler: `report_text.replace("```", "")`
 * (src/main.py:195). Python's `str.replace` scans left to right and removes
 * non-overlapping occurrences, so a run of n backticks keeps n % 3 of them.
 */
module Fences {

  const FENCE: string := "```"

  /** A code fence starts at position i of s. */
  predicate FenceAt(s: string, i: nat)
  {
    i + 3 <= |s| && s[i] == '`' && s[i + 1] == '`' && s[i + 2] == '`'
  }

  /** s contains no "```" anywhere. */
  predicate FenceFree(s: string)
  {
    forall i: nat :: i < |s| ==> !FenceAt(s, i)
  }

  /** Left-to-right removal of every non-overlapping "```". */
  function StripFences(s: string): (r: string)
    ensures |r| <= |s|
    ensures (|s| - |r|) % 3 == 0
    decreases |s|
  {
    if FenceAt(s, 0) then StripFences(s[3..])
    else if s == [] then []
    else [s[0]] + StripFences(s[1..])
  }

  /** Number of backticks s starts with. */
  function LeadingTicks(s: string): nat
    decreases |s|
  {
    if s != [] && s[0] == '`' then 1 + LeadingTicks(s[1..]) else 0
  }

  /** The characters of s other than backticks, in order. */
  function NonTicks(s: string): string
    decreases |s|
  {
    if s == [] then []
    else (if s[0] == '`' then [] else [s[0]]) + NonTicks(s[1..])
  }

  lemma FenceAtStartIffThreeTicks(s: string)
    ensures FenceAt(s, 0) <==> LeadingTicks(s) >= 3
  {
    if |s| >= 1 && s[0] == '`' {
      assert LeadingTicks(s) == 1 + LeadingTicks(s[1..]);
      if |s| >= 2 && s[1] == '`' {
        assert LeadingTicks(s[1..]) == 1 + LeadingTicks(s[2..]);
        if |s| >= 3 && s[2] == '`' {
          assert LeadingTicks(s[2..]) == 1 + LeadingTicks(s[3..]);
        }
      }
    }
  }

  /** A leading run of n backticks leaves n % 3 of them. */
  lemma {:induction false} StripLeadingTicks(s: string)
    ensures LeadingTicks(StripFences(s)) == LeadingTicks(s) % 3
    decreases |s|
  {
    FenceAtStartIffThreeTicks(s);
    if FenceAt(s, 0) {
      assert LeadingTicks(s) == 3 + LeadingTicks(s[3..]) by {
        assert s[1..][1..][1..] == s[3..];
      }
      StripLeadingTicks(s[3..]);
    } else if s != [] {
      StripLeadingTicks(s[1..]);
      var r := StripFences(s);
      assert r == [s[0]] + StripFences(s[1..]);
      assert r[1..] == StripFences(s[1..]);
    }
  }

  /** No fence survives the strip: the runs it leaves are at most two backticks long. */
  lemma {:induction false} StripLeavesNoFence(s: string)
    ensures FenceFree(StripFences(s))
    decreases |s|
  {
    if FenceAt(s, 0) {
      StripLeavesNoFence(s[3..]);
    } else if s != [] {
      var tail := StripFences(s[1..]);
      var r := [s[0]] + tail;
      StripLeavesNoFence(s[1..]);
      forall i: nat | i < |r|
        ensures !FenceAt(r, i)
      {
        if i == 0 {
          FenceAtStartIffThreeTicks(s);
          FenceAtStartIffThreeTicks(r);
          StripLeadingTicks(s[1..]);
          assert r[1..] == tail;
          if s[0] == '`' {
            assert LeadingTicks(s) == 1 + LeadingTicks(s[1..]);
            assert LeadingTicks(r) == 1 + LeadingTicks(tail);
          }
        } else {
          assert !FenceAt(tail, i - 1);
        }
      }
    }
  }

  /** Text with no fence is left exactly as it is. */
  lemma {:induction false} StripFenceFree(s: string)
    requires FenceFree(s)
    ensures StripFences(s) == s
    decreases |s|
  {
    if s != [] {
      assert !FenceAt(s, 0);
      forall i: nat | i < |s[1..]|
        ensures !FenceAt(s[1..], i)
      {
        assert !FenceAt(s, i + 1);
      }
      StripFenceFree(s[1..]);
    }
  }

  /** A run of n backticks. */
  function Ticks(n: nat): string
  {
    seq(n, _ => '`')
  }

  /** A character other than a backtick splits the strip: each side is stripped on its own. */
  lemma {:induction false} StripSplit(a: string, c: char, b: string)
    requires c != '`'
    ensures StripFences(a + [c] + b) == StripFences(a) + [c] + StripFences(b)
    decreases |a|
  {
    var s := a + [c] + b;
    if |a| >= 3 && FenceAt(a, 0) {
      assert FenceAt(s, 0);
      assert s[3..] == a[3..] + [c] + b;
      StripSplit(a[3..], c, b);
    } else if a == [] {
      assert s == [c] + b;
      assert !FenceAt(s, 0);
      assert s[1..] == b;
    } else {
      assert !FenceAt(s, 0) by {
        if |a| < 3 {
          assert s[|a|] == c;
        }
      }
      assert !FenceAt(a, 0);
      assert s[0] == a[0];
      assert s[1..] == a[1..] + [c] + b;
      StripSplit(a[1..], c, b);
    }
  }

  /** A run of n backticks shrinks to n % 3 of them. */
  lemma {:induction false} StripTickRun(n: nat)
    ensures StripFences(Ticks(n)) == Ticks(n % 3)
    decreases n
  {
    if n >= 3 {
      assert FenceAt(Ticks(n), 0);
      assert Ticks(n)[3..] == Ticks(n - 3);
      StripTickRun(n - 3);
    } else {
      StripFenceFree(Ticks(n));
    }
  }

  /** Stripping twice is stripping once. */
  lemma StripIdempotent(s: string)
    ensures StripFences(StripFences(s)) == StripFences(s)
  {
    StripLeavesNoFence(s);
    StripFenceFree(StripFences(s));
  }

  /** Only backticks are removed: every other character survives, in order. */
  lemma {:induction false} StripKeepsText(s: string)
    ensures NonTicks(StripFences(s)) == NonTicks(s)
    decreases |s|
  {
    if FenceAt(s, 0) {
      StripKeepsText(s[3..]);
      assert NonTicks(s) == NonTicks(s[1..]);
      assert NonTicks(s[1..]) == NonTicks(s[1..][1..]);
      assert NonTicks(s[1..][1..]) == NonTicks(s[1..][1..][1..]);
      assert s[1..][1..][1..] == s[3..];
    } else if s != [] {
      StripKeepsText(s[1..]);
      var r := StripFences(s);
      assert r[0] == s[0] && r[1..] == StripFences(s[1..]);
    }
  }
}
