// When a generation ends, and where its output is cut: stop tokens, the stop string
// and the generation limit.
module Stops {
  import opened Basics
  import opened Kv


  /** What ends a generation: the stop tokens, the stop string, the limit on new tokens. */
  datatype Ending = Ending(stopTokens: seq<Token>, stopStr: Option<string>, maxGen: Option<nat>, text: Token -> string)
  {
    /** Every token has some text and the stop string is not empty. */
    ghost predicate Valid() {
      (forall t :: |text(t)| > 0) && (stopStr.Some? ==> stopStr.value != "")
    }
  }

  function Decode(text: Token -> string, toks: seq<Token>): string {
    if toks == [] then "" else text(toks[0]) + Decode(text, toks[1..])
  }

  /** Python's `sub in s`. */
  predicate Occurs(sub: string, s: string) {
    exists i: nat {:trigger s[i..]} :: i + |sub| <= |s| && s[i..][..|sub|] == sub
  }

  /** Some rule ends the generation at exactly these tokens, or ended it before. */
  predicate Stopped(e: Ending, toks: seq<Token>) {
    || (toks != [] && toks[|toks| - 1] in e.stopTokens)
    || (e.stopStr.Some? && Occurs(e.stopStr.value, Decode(e.text, toks)))
    || (e.maxGen.Some? && |toks| >= e.maxGen.value)
  }

  lemma {:induction false} DecodeConcat(text: Token -> string, a: seq<Token>, b: seq<Token>)
    ensures Decode(text, a + b) == Decode(text, a) + Decode(text, b)
    decreases |a|
  {
    if a == [] {
      assert a + b == b;
    } else {
      assert (a + b)[1..] == a[1..] + b;
      DecodeConcat(text, a[1..], b);
    }
  }

  lemma {:induction false} DecodeLength(text: Token -> string, a: seq<Token>)
    requires forall t :: |text(t)| > 0
    ensures |Decode(text, a)| >= |a|
    decreases |a|
  {
    if a != [] { DecodeLength(text, a[1..]); }
  }

  lemma OccursMore(sub: string, pre: string, s: string, post: string)
    requires Occurs(sub, s)
    ensures Occurs(sub, pre + s + post)
  {
    var i: nat :| i + |sub| <= |s| && s[i..][..|sub|] == sub;
    assert (pre + s + post)[|pre| + i..][..|sub|] == s[i..][..|sub|];
  }

  /** A longer prefix contains whatever a shorter one does. */
  lemma OccursMonotone(text: Token -> string, sub: string, toks: seq<Token>, j: nat, k: nat)
    requires j <= k <= |toks| && Occurs(sub, Decode(text, toks[..j]))
    ensures Occurs(sub, Decode(text, toks[..k]))
  {
    assert toks[..k] == toks[..j] + toks[j..k];
    DecodeConcat(text, toks[..j], toks[j..k]);
    OccursMore(sub, "", Decode(text, toks[..j]), Decode(text, toks[j..k]));
    assert "" + Decode(text, toks[..j]) + Decode(text, toks[j..k]) == Decode(text, toks[..k]);
  }

  /** `tokens[-n:]` */
  function LastN<T>(s: seq<T>, n: nat): seq<T> {
    if n < |s| then s[|s| - n..] else s
  }

  /**
   * The window of `_has_stop_str`: when the stop string was absent before, looking at the new
   * tokens and as many old ones as it has characters is the same as looking at everything.
   */
  lemma WindowSuffices(e: Ending, before: seq<Token>, added: seq<Token>)
    requires e.Valid() && e.stopStr.Some? && !Occurs(e.stopStr.value, Decode(e.text, before))
    ensures var stop := e.stopStr.value;
      Occurs(stop, Decode(e.text, LastN(before + added, |stop| + |added|))) <==>
        Occurs(stop, Decode(e.text, before + added))
  {
    var stop, toks := e.stopStr.value, before + added;
    var n := |stop| + |added|;
    if n < |toks| {
      var head, tail := before[..|before| - |stop|], before[|before| - |stop|..];
      assert before == head + tail && toks[|toks| - n..] == tail + added && toks == head + (tail + added);
      DecodeConcat(e.text, head, tail); DecodeConcat(e.text, tail, added); DecodeConcat(e.text, head, tail + added);
      DecodeLength(e.text, tail);
      WindowString(stop, Decode(e.text, head), Decode(e.text, tail), Decode(e.text, added));
    }
  }

  lemma WindowString(stop: string, h: string, t: string, d: string)
    requires stop != "" && |t| >= |stop| && !Occurs(stop, h + t)
    ensures Occurs(stop, t + d) <==> Occurs(stop, h + (t + d))
  {
    var full := h + (t + d);
    forall i: nat | i + |stop| <= |h + t| ensures (h + t)[i..][..|stop|] == full[i..][..|stop|] { }
    if Occurs(stop, t + d) {
      OccursMore(stop, h, t + d, "");
      assert h + (t + d) + "" == full;
    }
    if Occurs(stop, full) {
      var i: nat :| i + |stop| <= |full| && full[i..][..|stop|] == stop;
      assert i >= |h| ==> (t + d)[i - |h|..][..|stop|] == full[i..][..|stop|];
    }
  }

  /** `_has_stop_str` */
  method HasStopStr(e: Ending, tokens: seq<Token>, nNew: nat) returns (b: bool)
    requires e.Valid() && nNew <= |tokens|
    requires e.stopStr.Some? ==> !Occurs(e.stopStr.value, Decode(e.text, tokens[..|tokens| - nNew]))
    ensures b <==> e.stopStr.Some? && Occurs(e.stopStr.value, Decode(e.text, tokens))
  {
    if e.stopStr.None? { return false; }
    var stop := e.stopStr.value;
    var tokenSpan := |stop| + nNew;
    b := OccursIn(stop, Decode(e.text, LastN(tokens, tokenSpan)));
    WindowSuffices(e, tokens[..|tokens| - nNew], tokens[|tokens| - nNew..]);
    assert tokens[..|tokens| - nNew] + tokens[|tokens| - nNew..] == tokens;
  }

  method OccursIn(sub: string, s: string) returns (b: bool)
    ensures b <==> Occurs(sub, s)
  {
    var i := 0;
    while i + |sub| <= |s|
      invariant forall j: nat {:trigger s[j..]} :: j < i && j + |sub| <= |s| ==> s[j..][..|sub|] != sub
      decreases |s| - i
    {
      if s[i..][..|sub|] == sub { return true; }
      i := i + 1;
    }
    b := false;
  }

  /** `tokens.index(st, n)`, or the length when there is none. */
  method IndexFrom(tokens: seq<Token>, st: Token, n: nat) returns (i: nat)
    requires n <= |tokens|
    ensures n <= i <= |tokens| && (i < |tokens| ==> tokens[i] == st)
    ensures forall j :: n <= j < i ==> tokens[j] != st
  {
    i := n;
    while i < |tokens| && tokens[i] != st
      invariant n <= i <= |tokens| && forall j :: n <= j < i ==> tokens[j] != st
    {
      i := i + 1;
    }
  }

  method StopTokenPos(tokens: seq<Token>, stopTokens: seq<Token>, n: nat) returns (trim: nat)
    requires n <= |tokens|
    ensures trim <= |tokens| && forall j :: n <= j < trim - 1 ==> tokens[j] !in stopTokens
    ensures trim < |tokens| ==> n < trim && tokens[trim - 1] in stopTokens
    ensures trim == |tokens| && n < |tokens| ==> forall j :: n <= j < |tokens| - 1 ==> tokens[j] !in stopTokens
  {
    trim := |tokens|;
    for k := 0 to |stopTokens|
      invariant trim <= |tokens| && forall j :: n <= j < trim - 1 ==> tokens[j] !in stopTokens[..k]
      invariant trim < |tokens| ==> n < trim && tokens[trim - 1] in stopTokens
    {
      var i := IndexFrom(tokens, stopTokens[k], n);
      if i < |tokens| && i + 1 < trim { trim := i + 1; }
      assert stopTokens[..k + 1] == stopTokens[..k] + [stopTokens[k]];
    }
    assert stopTokens[..|stopTokens|] == stopTokens;
  }

  /** The bisection: the shortest prefix whose text contains the stop string. */
  method StopStrPos(e: Ending, tokens: seq<Token>, trim: nat) returns (r: nat)
    requires e.Valid() && e.stopStr.Some? && trim <= |tokens|
    requires Occurs(e.stopStr.value, Decode(e.text, tokens[..trim]))
    ensures 0 < r <= trim && Occurs(e.stopStr.value, Decode(e.text, tokens[..r]))
    ensures forall j :: 0 <= j < r ==> !Occurs(e.stopStr.value, Decode(e.text, tokens[..j]))
  {
    var stop := e.stopStr.value;
    var f, t := 0, trim;
    assert tokens[..0] == [];
    while t - f > 1
      invariant 0 <= f < t <= trim
      invariant !Occurs(stop, Decode(e.text, tokens[..f])) && Occurs(stop, Decode(e.text, tokens[..t]))
    {
      var m := f + (t - f) / 2;
      var inside := OccursIn(stop, Decode(e.text, tokens[..m]));
      if inside { t := m; } else { f := m; }
    }
    assert f == t - 1;
    r := t;
    forall j | 0 <= j < r ensures !Occurs(stop, Decode(e.text, tokens[..j])) {
      if Occurs(stop, Decode(e.text, tokens[..j])) { OccursMonotone(e.text, stop, tokens, j, f); }
    }
  }

  /**
   * `_trim_packet`: the shortest prefix that ends the generation, or everything when nothing
   * does; only the last syncFreq + 1 tokens can be stop tokens.
   */
  method TrimPos(e: Ending, tokens: seq<Token>, syncFreq: nat) returns (trim: nat)
    requires e.Valid()
    requires forall j :: 0 <= j < |tokens| - syncFreq - 1 ==> tokens[j] !in e.stopTokens
    ensures trim <= |tokens| && forall j :: 0 <= j < trim ==> !Stopped(e, tokens[..j])
    ensures trim < |tokens| || Stopped(e, tokens) ==> Stopped(e, tokens[..trim])
  {
    var n := if |tokens| > syncFreq + 1 then |tokens| - syncFreq - 1 else 0;
    trim := StopTokenPos(tokens, e.stopTokens, n);
    ghost var byToken := trim;
    if e.maxGen.Some? && e.maxGen.value < trim {
      trim := e.maxGen.value;
    }
    ghost var byLimit := trim;
    if e.stopStr.Some? {
      var inside := OccursIn(e.stopStr.value, Decode(e.text, tokens[..trim]));
      if inside {
        trim := StopStrPos(e, tokens, trim);
      }
    }
    assert tokens[..|tokens|] == tokens;
    forall j | 0 <= j < trim ensures !Stopped(e, tokens[..j]) {
      assert j > 0 ==> tokens[..j][|tokens[..j]| - 1] == tokens[j - 1];
      if e.stopStr.Some? && trim == byLimit && Occurs(e.stopStr.value, Decode(e.text, tokens[..j])) {
        OccursMonotone(e.text, e.stopStr.value, tokens, j, trim);
      }
    }
    if trim > 0 { assert tokens[..trim][|tokens[..trim]| - 1] == tokens[trim - 1]; }
  }
}
