/** The parts of Go's `strings` package the webhook uses, on sequences of characters. */
module Text {

  /** strings.Split with a one-character separator. */
  function Split(s: string, sep: char): (parts: seq<string>)
    ensures |parts| >= 1
    ensures forall part | part in parts :: sep !in part
  {
    if s == "" then [""]
    else
      var rest := Split(s[1..], sep);
      if s[0] == sep then [""] + rest else [[s[0]] + rest[0]] + rest[1..]
  }

  /** strings.Join with a one-character separator. */
  function Join(parts: seq<string>, sep: char): string {
    if parts == [] then ""
    else if |parts| == 1 then parts[0]
    else parts[0] + [sep] + Join(parts[1..], sep)
  }

  /** strings.ReplaceAll for a non-empty `from`: left to right, without overlap. */
  function ReplaceAll(s: string, from: string, to: string): string
    requires from != ""
  {
    if s == "" then ""
    else if from <= s then to + ReplaceAll(s[|from|..], from, to)
    else [s[0]] + ReplaceAll(s[1..], from, to)
  }

  ghost predicate NoDuplicates(s: seq<string>) {
    forall i, j | 0 <= i < j < |s| :: s[i] != s[j]
  }

  /** unicode.IsSpace */
  predicate IsSpace(c: char) {
    || '\U{0009}' <= c <= '\U{000d}' || c == ' ' || c == '\U{0085}' || c == '\U{00a0}' || c == '\U{1680}'
    || '\U{2000}' <= c <= '\U{200a}' || c == '\U{2028}' || c == '\U{2029}' || c == '\U{202f}' || c == '\U{205f}'
    || c == '\U{3000}'
  }

  /** The code points in question. */
  lemma SpacesExactly(c: char)
    ensures IsSpace(c) <==>
            c as int in {0x09, 0x0a, 0x0b, 0x0c, 0x0d, 0x20, 0x85, 0xa0, 0x1680, 0x2000, 0x2001, 0x2002, 0x2003, 0x2004,
                         0x2005, 0x2006, 0x2007, 0x2008, 0x2009, 0x200a, 0x2028, 0x2029, 0x202f, 0x205f, 0x3000}
  {
  }

  /** strings.TrimSpace */
  function TrimSpace(s: string): string {
    if s == "" then ""
    else if IsSpace(s[0]) then TrimSpace(s[1..])
    else if IsSpace(s[|s| - 1]) then TrimSpace(s[..|s| - 1])
    else s
  }

  lemma {:induction false} JoinSplit(s: string, sep: char)
    ensures Join(Split(s, sep), sep) == s
  {
    if s != "" {
      var rest := Split(s[1..], sep);
      JoinSplit(s[1..], sep);
      assert s == [s[0]] + s[1..];
      if s[0] == sep {
        assert ([""] + rest)[1..] == rest;
      } else if |rest| > 1 {
        assert Split(s, sep)[1..] == rest[1..];
      }
    }
  }

  /** Up to the first separator, a split is that piece followed by the split of the rest. */
  lemma {:induction false} SplitHead(head: string, sep: char, rest: string)
    requires sep !in head
    ensures Split(head + [sep] + rest, sep) == [head] + Split(rest, sep)
  {
    var s := head + [sep] + rest;
    if head == "" {
      assert s[1..] == rest;
    } else {
      assert s[1..] == head[1..] + [sep] + rest;
      SplitHead(head[1..], sep, rest);
      assert head == [head[0]] + head[1..];
    }
  }

  lemma {:induction false} SplitWhole(s: string, sep: char)
    requires sep !in s
    ensures Split(s, sep) == [s]
  {
    if s != "" {
      SplitWhole(s[1..], sep);
      assert s == [s[0]] + s[1..];
    }
  }

  lemma {:induction false} SplitJoin(parts: seq<string>, sep: char)
    requires parts != [] && forall part | part in parts :: sep !in part
    ensures Split(Join(parts, sep), sep) == parts
  {
    if |parts| == 1 {
      SplitWhole(parts[0], sep);
    } else {
      SplitJoin(parts[1..], sep);
      SplitHead(parts[0], sep, Join(parts[1..], sep));
    }
  }

  lemma {:induction false} TrimKeepsInner(s: string)
    ensures var t := TrimSpace(s);
            && (t != "" ==> !IsSpace(t[0]) && !IsSpace(t[|t| - 1]))
            && forall c | c in t :: c in s
  {
    if s == "" {
    } else if IsSpace(s[0]) {
      TrimKeepsInner(s[1..]);
    } else if IsSpace(s[|s| - 1]) {
      TrimKeepsInner(s[..|s| - 1]);
    }
  }

  lemma {:induction false} ReplaceAllConcatChar(c: char, s: string, from: string, to: string)
    requires from != "" && c != from[0]
    ensures ReplaceAll([c] + s, from, to) == [c] + ReplaceAll(s, from, to)
  {
  }

  lemma {:induction false} ReplaceAllHit(s: string, from: string, to: string)
    requires from != ""
    ensures ReplaceAll(from + s, from, to) == to + ReplaceAll(s, from, to)
  {
  }

  predicate AllSpace(s: string) {
    forall c | c in s :: IsSpace(c)
  }

  /** Nothing, or something without surrounding space. */
  predicate Bare(t: string) {
    t != "" ==> !IsSpace(t[0]) && !IsSpace(t[|t| - 1])
  }

  lemma {:induction false} TrimLeavesSpace(s: string) returns (before: string, after: string)
    ensures s == before + TrimSpace(s) + after && AllSpace(before) && AllSpace(after) && Bare(TrimSpace(s))
  {
    before, after := "", "";
    if s == "" {
    } else if IsSpace(s[0]) {
      before, after := TrimLeavesSpace(s[1..]);
      before := [s[0]] + before;
      assert s == [s[0]] + s[1..];
    } else if IsSpace(s[|s| - 1]) {
      before, after := TrimLeavesSpace(s[..|s| - 1]);
      after := after + [s[|s| - 1]];
      assert s == s[..|s| - 1] + [s[|s| - 1]];
    }
  }

  lemma {:induction false} TrimOfPadded(before: string, t: string, after: string)
    requires AllSpace(before) && AllSpace(after) && Bare(t)
    ensures TrimSpace(before + t + after) == t
    decreases |before| + |after|
  {
    var s := before + t + after;
    if before != "" {
      assert s[0] == before[0] && before[0] in before && s[1..] == before[1..] + t + after;
      TrimOfPadded(before[1..], t, after);
    } else if after != "" {
      var n := |after| - 1;
      assert after[n] in after;
      if t == "" {
        assert s == after && after[0] in after && s[1..] == "" + t + after[1..];
        TrimOfPadded("", t, after[1..]);
      } else {
        assert s[|s| - 1] == after[n] && s[0] == t[0] && s[..|s| - 1] == before + t + after[..n];
        TrimOfPadded(before, t, after[..n]);
      }
    } else {
      assert s == t;
    }
  }

  /** Trimming takes away the space around, all of it, and nothing else. */
  lemma TrimExactly(s: string, t: string)
    ensures TrimSpace(s) == t <==>
            Bare(t) && exists before, after :: AllSpace(before) && AllSpace(after) && s == before + t + after
  {
    var before, after := TrimLeavesSpace(s);
    if Bare(t) {
      forall b, a | AllSpace(b) && AllSpace(a) && s == b + t + a ensures TrimSpace(s) == t {
        TrimOfPadded(b, t, a);
      }
    }
  }
}
