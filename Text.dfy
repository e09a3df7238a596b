/**
 * The JavaScript string operations the controller relies on, with the
 * semantics ECMA-262 gives them: String.prototype.trim, split with a
 * one-character separator, indexOf and replace with a string pattern,
 * Array.prototype.join, and the truthiness test `x || fallback` on an
 * optional string.
 */
module Text {
  import opened Wrappers
  import opened Sequences

  /**
   * The code points trim removes: WhiteSpace (TAB, VT, FF, SPACE, NBSP,
   * ZWNBSP and every Zs code point) and LineTerminator (LF, CR, LS, PS),
   * sections 12.2 and 12.3 of ECMA-262.
   */
  predicate IsWhitespace(c: char)
  {
    || c == '\t' || c == '\n' || c == '\U{000B}' || c == '\U{000C}' || c == '\r'
    || c == ' ' || c == '\U{00A0}' || c == '\U{1680}'
    || ('\U{2000}' <= c <= '\U{200A}')
    || c == '\U{2028}' || c == '\U{2029}' || c == '\U{202F}' || c == '\U{205F}'
    || c == '\U{3000}' || c == '\U{FEFF}'
  }

  predicate AllWhitespace(s: string)
  {
    forall i :: 0 <= i < |s| ==> IsWhitespace(s[i])
  }

  /** Every character of s from index k on is whitespace. */
  predicate WhitespaceFrom(s: string, k: int)
  {
    forall i :: 0 <= k <= i < |s| ==> IsWhitespace(s[i])
  }

  /** No whitespace at either end: the strings trim returns unchanged. */
  predicate Trimmed(s: string)
  {
    s == [] || (!IsWhitespace(s[0]) && !IsWhitespace(s[|s| - 1]))
  }

  /** The length of the run of whitespace that s starts with. */
  function LeadingWhitespace(s: string): (n: nat)
    ensures n <= |s| && AllWhitespace(s[..n])
    ensures n < |s| ==> !IsWhitespace(s[n])
  {
    if s != [] && IsWhitespace(s[0]) then
      var n := LeadingWhitespace(s[1..]);
      PrefixOfTail(s, n);
      1 + n
    else
      0
  }

  /** The length of the run of whitespace that s ends with. */
  function TrailingWhitespace(s: string): (n: nat)
    ensures n <= |s| && WhitespaceFrom(s, |s| - n)
    ensures n < |s| ==> !IsWhitespace(s[|s| - n - 1])
  {
    if s != [] && IsWhitespace(s[|s| - 1]) then
      1 + TrailingWhitespace(s[..|s| - 1])
    else
      0
  }

  /** s without its leading whitespace. */
  function TrimStart(s: string): string
  {
    s[LeadingWhitespace(s)..]
  }

  /** s without its trailing whitespace. */
  function TrimEnd(s: string): string
  {
    s[..|s| - TrailingWhitespace(s)]
  }

  /**
   * String.prototype.trim: whitespace removed from both ends (TrimInfix
   * shows that nothing else is removed); a string with none at its ends
   * is returned as it is.
   */
  function Trim(s: string): (r: string)
    ensures Trimmed(r) && |r| <= |s|
    ensures Trimmed(s) ==> r == s
  {
    assert Trimmed(s) ==> LeadingWhitespace(s) == 0 && TrailingWhitespace(s) == 0;
    assert s[0..] == s && s[..|s|] == s;
    TrimEnd(TrimStart(s))
  }

  /** Trim applied to every element, as `parts.map((s) => s.trim())`. */
  function TrimAll(parts: seq<string>): (trimmed: seq<string>)
    ensures |trimmed| == |parts|
    ensures forall i :: 0 <= i < |parts| ==> trimmed[i] == Trim(parts[i])
  {
    if parts == [] then []
    else
      [Trim(parts[0])] + TrimAll(parts[1..])
  }

  /** Array.prototype.join: the parts with sep between neighbours; no parts give "". */
  function Join(parts: seq<string>, sep: string): string
  {
    if |parts| == 0 then []
    else if |parts| == 1 then parts[0]
    else parts[0] + sep + Join(parts[1..], sep)
  }

  /**
   * String.prototype.split with a one-character separator: the maximal
   * separator-free pieces, in order. It is never empty ("" gives [""])
   * and joining the pieces back with the separator gives s again.
   */
  function Split(s: string, sep: char): (parts: seq<string>)
    ensures |parts| >= 1
    ensures forall i :: 0 <= i < |parts| ==> sep !in parts[i]
    ensures Join(parts, [sep]) == s
  {
    if s == [] then [[]]
    else
      var rest := Split(s[1..], sep);
      if s[0] == sep then
        [[]] + rest
      else
        var parts := [[s[0]] + rest[0]] + rest[1..];
        assert parts[1..] == rest[1..];
        parts
  }

  /** pat occurs in s starting at index k. */
  predicate OccursAt(s: string, pat: string, k: int)
  {
    0 <= k && k + |pat| <= |s| && forall i :: 0 <= i < |pat| ==> s[k + i] == pat[i]
  }

  /** String.prototype.indexOf from position 0: the first occurrence of pat, if any. */
  function IndexOf(s: string, pat: string): (k: Option<nat>)
    ensures k.Some? ==> OccursAt(s, pat, k.value)
    ensures k.Some? ==> forall j :: 0 <= j < k.value ==> !OccursAt(s, pat, j)
    ensures k.None? ==> forall j :: !OccursAt(s, pat, j)
  {
    if |pat| > |s| then None
    else
      assert forall i :: 0 <= i < |pat| ==> s[..|pat|][i] == s[i];
      if s[..|pat|] == pat then Some(0)
      else
        forall j | OccursAt(s[1..], pat, j) ensures OccursAt(s, pat, j + 1) {
          forall i | 0 <= i < |pat| ensures s[j + 1 + i] == pat[i] {
            assert s[1..][j + i] == s[j + 1 + i];
          }
        }
        forall j | 1 <= j && OccursAt(s, pat, j) ensures OccursAt(s[1..], pat, j - 1) {
          forall i | 0 <= i < |pat| ensures s[1..][j - 1 + i] == pat[i] {
            assert s[1..][j - 1 + i] == s[j + i];
          }
        }
        match IndexOf(s[1..], pat)
        case None => None
        case Some(k) => Some(k + 1)
  }

  /** String.prototype.replace with a string pattern: only the first occurrence is replaced. */
  function ReplaceFirst(s: string, pat: string, rep: string): string
  {
    match IndexOf(s, pat)
    case None => s
    case Some(k) => s[..k] + rep + s[k + |pat|..]
  }

  /** The JavaScript truth value of an optional string: present and not "". */
  predicate Present(o: Option<string>)
  {
    o.Some? && o.value != ""
  }

  /** `o || fallback` for an optional string. */
  function OrElse(o: Option<string>, fallback: string): string
  {
    if Present(o) then o.value else fallback
  }

  // ---------------------------------------------------------------------
  // Lemmas

  /**
   * What trim returns is an infix of its input: s starts with whitespace
   * followed by the result, and only whitespace comes after it.
   */
  lemma {:induction false} TrimInfix(s: string)
    ensures var n := LeadingWhitespace(s); var r := Trim(s);
            n + |r| <= |s| && s[..n + |r|] == s[..n] + r
            && AllWhitespace(s[..n]) && WhitespaceFrom(s, n + |r|)
  {
    var n := LeadingWhitespace(s);
    var t := TrimStart(s);
    var r := TrimEnd(t);
    TakeSplit(s, n, |r|);
    forall j | n + |r| <= j < |s| ensures IsWhitespace(s[j]) {
      assert s[j] == t[j - n];
    }
  }

  lemma {:induction false} LeadingSkips(ws: string, t: string)
    requires AllWhitespace(ws)
    ensures LeadingWhitespace(ws + t) == |ws| + LeadingWhitespace(t)
    decreases |ws|
  {
    if ws == [] {
      ConcatEmpty(t);
    } else {
      assert (ws + t)[0] == ws[0];
      TailOfConcat(ws, t);
      LeadingSkips(ws[1..], t);
    }
  }

  lemma {:induction false} TrailingSkips(t: string, ws: string)
    requires AllWhitespace(ws)
    ensures TrailingWhitespace(t + ws) == TrailingWhitespace(t) + |ws|
    decreases |ws|
  {
    if ws == [] {
      ConcatEmpty(t);
    } else {
      assert (t + ws)[|t + ws| - 1] == ws[|ws| - 1];
      FrontOfConcat(t, ws);
      TrailingSkips(t, ws[..|ws| - 1]);
    }
  }

  /** Leading whitespace does not change what trimming the start leaves. */
  lemma TrimStartSkips(ws: string, t: string)
    requires AllWhitespace(ws)
    ensures TrimStart(ws + t) == TrimStart(t)
  {
    LeadingSkips(ws, t);
    DropOfConcat(ws, t, LeadingWhitespace(t));
  }

  /** Trailing whitespace does not change what trimming the end leaves. */
  lemma TrimEndSkips(t: string, ws: string)
    requires AllWhitespace(ws)
    ensures TrimEnd(t + ws) == TrimEnd(t)
  {
    TrailingSkips(t, ws);
    TakeOfConcat(t, ws, |t| - TrailingWhitespace(t));
  }

  /** trim removes exactly the whitespace around a string that has none at its ends. */
  lemma TrimPadded(lead: string, m: string, trail: string)
    requires AllWhitespace(lead) && AllWhitespace(trail) && Trimmed(m)
    ensures Trim(lead + m + trail) == m
  {
    ConcatAssoc(lead, m, trail);
    TrimStartSkips(lead, m + trail);
    if m == [] {
      ConcatEmpty(trail);
      TrimStartSkips(trail, []);
      assert TrimStart(lead + m + trail) == [];
    } else {
      assert (m + trail)[0] == m[0];
      assert (m + trail)[0..] == m + trail;
      TrimEndSkips(m, trail);
      assert m[..|m|] == m;
    }
  }

  lemma {:induction false} SplitNoSeparator(a: string, sep: char)
    requires sep !in a
    ensures Split(a, sep) == [a]
  {
    if a != [] {
      SplitNoSeparator(a[1..], sep);
      assert [a[0]] + a[1..] == a;
    }
  }

  /** A separator-free field followed by the separator splits off as the first piece. */
  lemma {:induction false} SplitAfterField(a: string, b: string, sep: char)
    requires sep !in a
    ensures Split(a + [sep] + b, sep) == [a] + Split(b, sep)
  {
    var s := a + [sep] + b;
    if a == [] {
      assert s[1..] == b;
    } else {
      assert s[1..] == a[1..] + [sep] + b;
      SplitAfterField(a[1..], b, sep);
      assert [a[0]] + a[1..] == a;
    }
  }

  /** A trailing separator adds one empty piece. */
  lemma {:induction false} SplitTrailingSeparator(s: string, sep: char)
    ensures Split(s + [sep], sep) == Split(s, sep) + [[]]
  {
    if s == [] {
      assert ([] + [sep])[1..] == [];
    } else {
      assert (s + [sep])[1..] == s[1..] + [sep];
      SplitTrailingSeparator(s[1..], sep);
    }
  }

  lemma {:induction false} JoinSnoc(init: seq<string>, last: string, sep: string)
    requires init != []
    ensures Join(init + [last], sep) == Join(init, sep) + sep + last
  {
    if |init| == 1 {
      assert (init + [last])[1..] == [last];
    } else {
      assert (init + [last])[1..] == init[1..] + [last];
      JoinSnoc(init[1..], last, sep);
    }
  }

  lemma {:induction false} WhitespaceHasNoComma(pad: string)
    requires AllWhitespace(pad)
    ensures ',' !in pad
  {
    forall i | 0 <= i < |pad| ensures pad[i] != ',' {
      assert IsWhitespace(pad[i]);
    }
  }

  lemma {:induction false} TrimAllCons(a: string, t: seq<string>)
    ensures TrimAll([a] + t) == [Trim(a)] + TrimAll(t)
  {
    assert ([a] + t)[1..] == t;
  }

  /** A whitespace pad before a comma-free trimmed name: still comma-free, and trim removes the pad. */
  lemma {:induction false} PaddedField(pad: string, x: string)
    requires AllWhitespace(pad) && ',' !in x && Trimmed(x)
    ensures ',' !in pad + x && Trim(pad + x) == x
  {
    WhitespaceHasNoComma(pad);
    TrimPadded(pad, x, []);
    assert pad + x + [] == pad + x;
    forall i | 0 <= i < |pad + x| ensures (pad + x)[i] != ',' {
      if i < |pad| { assert (pad + x)[i] == pad[i]; } else { assert (pad + x)[i] == x[i - |pad|]; }
    }
  }

  lemma {:induction false} JoinCommaShape(pad: string, xs: seq<string>)
    requires |xs| >= 2
    ensures pad + Join(xs, ", ") == (pad + xs[0]) + [','] + (" " + Join(xs[1..], ", "))
  {
    var rest := Join(xs[1..], ", ");
    assert Join(xs, ", ") == xs[0] + ", " + rest;
    CommaShape(pad, xs[0], rest);
  }

  lemma {:induction false} CommaShape(pad: string, x: string, rest: string)
    ensures pad + (x + ", " + rest) == (pad + x) + [','] + (" " + rest)
  {
  }

  /** A whitespace pad before a single name splits into that name alone, once trimmed. */
  lemma {:induction false} SplitJoinSingle(x: string, pad: string)
    requires AllWhitespace(pad) && ',' !in x && Trimmed(x)
    ensures TrimAll(Split(pad + x, ',')) == [x]
  {
    PaddedField(pad, x);
    SplitNoSeparator(pad + x, ',');
    TrimAllCons(pad + x, []);
    assert [x] + [] == [x];
  }

  /** The first name, with its pad, splits off before the rest of the joined text. */
  lemma {:induction false} SplitJoinStep(xs: seq<string>, pad: string)
    requires |xs| >= 2 && AllWhitespace(pad) && ',' !in xs[0] && Trimmed(xs[0])
    ensures Split(pad + Join(xs, ", "), ',') == [pad + xs[0]] + Split(" " + Join(xs[1..], ", "), ',')
    ensures Trim(pad + xs[0]) == xs[0]
  {
    PaddedField(pad, xs[0]);
    JoinCommaShape(pad, xs);
    SplitAfterField(pad + xs[0], " " + Join(xs[1..], ", "), ',');
  }

  /**
   * Splitting `xs.join(", ")` on "," and trimming every piece gives xs back,
   * for a non-empty list of comma-free, trimmed names, whatever whitespace
   * precedes the joined text.
   */
  lemma {:induction false} SplitJoinComma(xs: seq<string>, pad: string)
    requires xs != [] && AllWhitespace(pad)
    requires forall i :: 0 <= i < |xs| ==> ',' !in xs[i] && Trimmed(xs[i])
    ensures TrimAll(Split(pad + Join(xs, ", "), ',')) == xs
    decreases |xs|
  {
    if |xs| == 1 {
      assert pad + Join(xs, ", ") == pad + xs[0];
      SplitJoinSingle(xs[0], pad);
    } else {
      var tail := xs[1..];
      var pieces := Split(" " + Join(tail, ", "), ',');
      SplitJoinStep(xs, pad);
      assert forall i :: 0 <= i < |tail| ==> tail[i] == xs[i + 1];
      assert AllWhitespace(" ");
      SplitJoinComma(tail, " ");
      TrimAllCons(pad + xs[0], pieces);
      HeadTail(xs);
    }
  }

  /**
   * The first occurrence of a pattern that starts with a non-whitespace
   * character lies after any whitespace lead, so replace removes that one.
   */
  lemma {:induction false} ReplaceAfterLead(lead: string, pat: string, rest: string, rep: string)
    requires AllWhitespace(lead) && pat != [] && !IsWhitespace(pat[0])
    ensures ReplaceFirst(lead + pat + rest, pat, rep) == lead + rep + rest
  {
    var s := lead + pat + rest;
    forall i | 0 <= i < |pat| ensures s[|lead| + i] == pat[i] {
      assert s[|lead| + i] == (lead + pat)[|lead| + i];
    }
    assert OccursAt(s, pat, |lead|);
    forall j | 0 <= j < |lead| ensures !OccursAt(s, pat, j) {
      assert s[j + 0] == lead[j];
    }
    assert IndexOf(s, pat) == Some(|lead|);
    assert s[..|lead|] == lead && s[|lead| + |pat|..] == rest;
  }
}
