/** Models of the Go `strings`/`unicode` helpers the network base relies on:
    `strings.HasPrefix`, `strings.Split` and `strings.SplitN(_, _, 2)` with a
    one-character separator, and `strings.TrimSpace`.  Go strings are UTF-8
    bytes; here a string is a sequence of code points, which is what
    `TrimSpace` decodes to, and the separators used are ASCII. */
module Text {

  /** `strings.HasPrefix(s, prefix)`. */
  predicate HasPrefix(s: string, prefix: string) {
    |prefix| <= |s| && s[..|prefix|] == prefix
  }

  /** `s` has the prefix exactly when it is the prefix followed by something. */
  lemma HasPrefixIff(s: string, prefix: string)
    ensures HasPrefix(s, prefix) <==> exists rest :: s == prefix + rest
  {
    if HasPrefix(s, prefix) {
      assert s == prefix + s[|prefix|..];
    }
  }

  /** The first position of `c` in `s` (`strings.Index` for a one-character separator). */
  function IndexOf(s: string, c: char): (i: nat)
    requires c in s
    ensures i < |s| && s[i] == c
    ensures c !in s[..i]
  {
    if s[0] == c then 0
    else
      var j := IndexOf(s[1..], c);
      assert s[..j + 1] == [s[0]] + s[1..][..j];
      j + 1
  }

  /** `strings.Split(s, sep)`: every maximal separator-free run, in order;
      a string without `sep` (the empty string included) gives one piece. */
  function Split(s: string, sep: char): (pieces: seq<string>)
    ensures |pieces| >= 1
    ensures forall i :: 0 <= i < |pieces| ==> sep !in pieces[i]
    decreases |s|
  {
    if sep !in s then [s]
    else
      var i := IndexOf(s, sep);
      [s[..i]] + Split(s[i + 1..], sep)
  }

  /** `strings.Join(pieces, sep)`, the inverse of `Split`. */
  function Join(pieces: seq<string>, sep: char): string
    requires |pieces| >= 1
  {
    if |pieces| == 1 then pieces[0] else pieces[0] + [sep] + Join(pieces[1..], sep)
  }

  /** The first separator of `a + [sep] + b` is at `|a|` when `a` is separator-free. */
  lemma {:induction false} FirstSeparatorAt(a: string, b: string, sep: char)
    requires sep !in a
    ensures sep in a + [sep] + b && IndexOf(a + [sep] + b, sep) == |a|
  {
    var s := a + [sep] + b;
    assert s[|a|] == sep;
    if a != [] {
      assert s[0] == a[0];
      assert s[1..] == a[1..] + [sep] + b;
      FirstSeparatorAt(a[1..], b, sep);
    }
  }

  /** Joining what `Split` produced gives back the input. */
  lemma {:induction false} JoinSplit(s: string, sep: char)
    ensures Join(Split(s, sep), sep) == s
    decreases |s|
  {
    if sep in s {
      var i := IndexOf(s, sep);
      var head, rest := s[..i], s[i + 1..];
      var pieces := Split(rest, sep);
      assert Split(s, sep) == [head] + pieces;
      assert ([head] + pieces)[1..] == pieces;
      assert Join([head] + pieces, sep) == head + [sep] + Join(pieces, sep);
      JoinSplit(rest, sep);
      assert s == head + [sep] + rest;
    }
  }

  /** Splitting a join of separator-free pieces gives back the pieces. */
  lemma {:induction false} SplitJoin(pieces: seq<string>, sep: char)
    requires |pieces| >= 1
    requires forall i :: 0 <= i < |pieces| ==> sep !in pieces[i]
    ensures Split(Join(pieces, sep), sep) == pieces
  {
    if |pieces| > 1 {
      var head, rest := pieces[0], Join(pieces[1..], sep);
      var s := head + [sep] + rest;
      assert Join(pieces, sep) == s;
      FirstSeparatorAt(head, rest, sep);
      assert s[..|head|] == head;
      assert s[|head| + 1..] == rest;
      SplitJoin(pieces[1..], sep);
      assert Split(s, sep) == [head] + Split(rest, sep);
      assert pieces == [head] + pieces[1..];
    }
  }

  /** `strings.SplitN(s, sep, 2)`: one part (the whole string) when `sep`
      does not occur, otherwise the text before and after its first occurrence. */
  function SplitN2(s: string, sep: char): (parts: seq<string>)
    ensures |parts| == 1 || |parts| == 2
    ensures |parts| == 2 <==> sep in s
    ensures |parts| == 1 ==> parts[0] == s
    ensures |parts| == 2 ==> sep !in parts[0] && parts[0] + [sep] + parts[1] == s
  {
    if sep in s then
      var i := IndexOf(s, sep);
      assert s == s[..i] + [sep] + s[i + 1..];
      [s[..i], s[i + 1..]]
    else [s]
  }

  /** `unicode.IsSpace`: the Unicode White_Space property. */
  predicate IsSpace(c: char) {
    var n := c as int;
    || (9 <= n <= 13) || n == 0x20 || n == 0x85 || n == 0xA0 || n == 0x1680
    || (0x2000 <= n <= 0x200A) || n == 0x2028 || n == 0x2029 || n == 0x202F
    || n == 0x205F || n == 0x3000
  }

  predicate AllSpace(s: string) {
    forall i :: 0 <= i < |s| ==> IsSpace(s[i])
  }

  /** Removes leading white space. */
  function TrimLeft(s: string): string {
    if s != [] && IsSpace(s[0]) then TrimLeft(s[1..]) else s
  }

  /** Removes trailing white space. */
  function TrimRight(s: string): string {
    if s != [] && IsSpace(s[|s| - 1]) then TrimRight(s[..|s| - 1]) else s
  }

  /** `strings.TrimSpace`: both ends trimmed. */
  function TrimSpace(s: string): string {
    TrimRight(TrimLeft(s))
  }

  /** `TrimLeft` keeps the longest suffix that does not start with white space. */
  lemma {:induction false} TrimLeftSpec(s: string)
    ensures var r := TrimLeft(s);
            && |r| <= |s| && r == s[|s| - |r|..]
            && AllSpace(s[..|s| - |r|])
            && (r == [] || !IsSpace(r[0]))
  {
    if s != [] && IsSpace(s[0]) {
      TrimLeftSpec(s[1..]);
      var r := TrimLeft(s[1..]);
      assert s[..|s| - |r|] == [s[0]] + s[1..][..|s| - 1 - |r|];
    }
  }

  /** `TrimRight` keeps the longest prefix that does not end with white space. */
  lemma {:induction false} TrimRightSpec(s: string)
    ensures var r := TrimRight(s);
            && |r| <= |s| && r == s[..|r|]
            && AllSpace(s[|r|..])
            && (r == [] || !IsSpace(r[|r| - 1]))
  {
    if s != [] && IsSpace(s[|s| - 1]) {
      TrimRightSpec(s[..|s| - 1]);
      var r := TrimRight(s[..|s| - 1]);
      assert s[|r|..] == s[..|s| - 1][|r|..] + [s[|s| - 1]];
    }
  }

  /** `TrimSpace(s)` is the middle slice of `s` left once the white space at
      both ends is removed, and neither of its ends is white space. */
  lemma TrimSpaceSpec(s: string)
    ensures var r, lead := TrimSpace(s), |s| - |TrimLeft(s)|;
            && 0 <= lead <= lead + |r| <= |s|
            && r == s[lead..lead + |r|]
            && AllSpace(s[..lead]) && AllSpace(s[lead + |r|..])
            && (r == [] || (!IsSpace(r[0]) && !IsSpace(r[|r| - 1])))
  {
    var l := TrimLeft(s);
    TrimLeftSpec(s);
    TrimRightSpec(l);
    TrimSpaceShape(s, l, TrimRight(l));
  }

  /** Slicing facts behind `TrimSpace`: removing a prefix and then a suffix leaves a middle slice. */
  lemma TrimSpaceShape(s: string, l: string, r: string)
    requires |l| <= |s| && l == s[|s| - |l|..]
    requires |r| <= |l| && r == l[..|r|] && AllSpace(l[|r|..])
    ensures r == s[|s| - |l|..|s| - |l| + |r|]
    ensures AllSpace(s[|s| - |l| + |r|..])
  {
  }

  /** Trimming a text padded with white space on both sides gives the text back. */
  lemma {:induction false} TrimPadded(lead: string, t: string, trail: string)
    requires AllSpace(lead) && AllSpace(trail)
    requires t == [] || (!IsSpace(t[0]) && !IsSpace(t[|t| - 1]))
    ensures TrimSpace(lead + t + trail) == t
  {
    if t == [] {
      var s := lead + trail;
      assert lead + t + trail == s;
      TrimLeftSpec(s);
      var l := TrimLeft(s);
      if l != [] {
        assert false;
      }
    } else {
      assert lead + t + trail == lead + (t + trail);
      TrimLeftPadded(lead, t + trail);
      TrimRightPadded(t, trail);
    }
  }

  lemma {:induction false} TrimLeftPadded(lead: string, rest: string)
    requires AllSpace(lead)
    requires rest != [] && !IsSpace(rest[0])
    ensures TrimLeft(lead + rest) == rest
  {
    if lead == [] {
      assert lead + rest == rest;
    } else {
      assert (lead + rest)[1..] == lead[1..] + rest;
      TrimLeftPadded(lead[1..], rest);
    }
  }

  lemma {:induction false} TrimRightPadded(t: string, trail: string)
    requires AllSpace(trail)
    requires t == [] || !IsSpace(t[|t| - 1])
    ensures TrimRight(t + trail) == t
  {
    if trail == [] {
      assert t + trail == t;
    } else {
      var last := |trail| - 1;
      assert (t + trail)[..|t + trail| - 1] == t + trail[..last];
      TrimRightPadded(t, trail[..last]);
    }
  }
}
