/** Instance-identifier text: splitting it into elements, and elements into a name and keys. */
module IidText {
  import opened Common

  datatype Elem = Elem(name: string, keys: seq<(string, string)>)

  // ---------- Splitting at slashes outside brackets ----------

  datatype Splitter = Splitter(result: seq<string>, buffer: string, inside: bool)

  const START := Splitter([], "", false)

  function Flush(st: Splitter): seq<string> { if st.buffer == "" then st.result else st.result + [st.buffer] }

  function Step(st: Splitter, c: char): Splitter
  {
    if c == '/' && !st.inside then Splitter(Flush(st), "", false)
    else Splitter(st.result, st.buffer + [c], if c == '[' then true else if c == ']' then false else st.inside)
  }

  function Run(st: Splitter, s: string): Splitter
  {
    if s == "" then st else Step(Run(st, s[..|s| - 1]), s[|s| - 1])
  }

  function Split(iid: string): seq<string> { Flush(Run(START, iid)) }

  method SplitOutsideBrackets(iid: string) returns (result: seq<string>)
    ensures result == Split(iid)
  {
    result := [];
    var buffer, inside := "", false;
    for i := 0 to |iid|
      invariant Run(START, iid[..i]) == Splitter(result, buffer, inside)
    {
      assert iid[..i + 1][..i] == iid[..i];
      var c := iid[i];
      if c == '[' {
        inside := true;
      } else if c == ']' {
        inside := false;
      } else if c == '/' && !inside {
        if buffer != "" {
          result := result + [buffer];
        }
        buffer := "";
        continue;
      }
      buffer := buffer + [c];
    }
    assert iid[..|iid|] == iid;
    if buffer != "" {
      result := result + [buffer];
    }
  }

  // ---------- Splitting one element ----------

  function Count(s: string, c: char): nat
  {
    if s == "" then 0 else Count(s[1..], c) + if s[0] == c then 1 else 0
  }

  /** s without the closing brackets. */
  function Strip(s: string): string
  {
    if s == "" then "" else (if s[0] == ']' then "" else [s[0]]) + Strip(s[1..])
  }

  /** The position of the first c, or the length. */
  function First(s: string, c: char): (i: nat)
    ensures i <= |s| && c !in s[..i] && (i < |s| ==> s[i] == c)
  {
    if s == "" then 0 else if s[0] == c then 0 else
      var i := First(s[1..], c) + 1;
      assert s[..i] == [s[0]] + s[1..][..i - 1];
      i
  }

  /** One past the position of the last c, or 0. */
  function Last(s: string, c: char): (i: nat)
    ensures i <= |s| && (i > 0 ==> s[i - 1] == c)
  {
    if s == "" then 0 else if s[|s| - 1] == c then |s| else Last(s[..|s| - 1], c)
  }

  function Pieces(s: string): seq<string>
    decreases |s|
  {
    var i := First(s, '[');
    if i == |s| then [s] else [s[..i]] + Pieces(s[i + 1..])
  }

  function DropEmptyTail(a: seq<string>): seq<string>
  {
    if a != [] && a[|a| - 1] == "" then DropEmptyTail(a[..|a| - 1]) else a
  }

  predicate KeyChar(c: char) { 'a' <= c <= 'z' || 'A' <= c <= 'Z' || '0' <= c <= '9' || c == '_' || c == '-' }

  predicate Space(c: char) { c == ' ' || c == '\t' || c == '\r' || c == '\n' || c == 12 as char || c == 11 as char }

  /** Where the run of key characters, or of spaces, that starts at i ends. */
  function KeyEnd(x: string, i: nat): (j: nat)
    requires i <= |x|
    ensures i <= j <= |x|
    decreases |x| - i
  {
    if i < |x| && KeyChar(x[i]) then KeyEnd(x, i + 1) else i
  }

  function SpaceEnd(x: string, i: nat): (j: nat)
    requires i <= |x|
    ensures i <= j <= |x|
    decreases |x| - i
  {
    if i < |x| && Space(x[i]) then SpaceEnd(x, i + 1) else i
  }

  /** A run of key characters from i on that an equals sign follows: its bounds, and where the value begins. */
  function KeyAt(x: string, i: nat): (r: Option<(nat, nat, nat)>)
    requires i <= |x|
    ensures r.Some? ==> i == r.value.0 < r.value.1 < r.value.2 <= |x|
  {
    var j := KeyEnd(x, i);
    var k := SpaceEnd(x, j);
    if i < j && k < |x| && x[k] == '=' then Some((i, j, SpaceEnd(x, k + 1))) else None
  }

  /** The leftmost such run. */
  function FindKey(x: string, i: nat): (r: Option<(nat, nat, nat)>)
    requires i <= |x|
    ensures r.Some? ==> i <= r.value.0 < r.value.1 < r.value.2 <= |x|
    decreases |x| - i
  {
    if i == |x| then None else if KeyAt(x, i).Some? then KeyAt(x, i) else FindKey(x, i + 1)
  }

  /** What stands between the first and the last quote, if there are two. */
  function Quoted(v: string, q: char): Option<string>
  {
    var i, j := First(v, q), Last(v, q);
    if i + 1 < j then Some(v[i + 1..j - 1]) else None
  }

  function Unquote(v: string): string
  {
    var a := Quoted(v, '\'');
    if a.Some? then a.value else
      var b := Quoted(v, '"');
      if b.Some? then b.value else v
  }

  function KeyOf(x: string): Option<(string, string)>
  {
    var m := FindKey(x, 0);
    if m.None? then None else
      var v := x[m.value.2..];
      Some((x[m.value.0..m.value.1], Unquote(v[..First(v, '\n')])))
  }

  function KeysOf(a: seq<string>): Option<seq<(string, string)>>
  {
    if a == [] then Some([]) else
      var first, rest := KeyOf(a[0]), KeysOf(a[1..]);
      if first.None? || rest.None? then None else Some([first.value] + rest.value)
  }

  /** The name (none for an element of brackets only) and the keys; None where the source raises. */
  function ElementSplit(element: string): Option<(Option<string>, seq<(string, string)>)>
  {
    if Count(element, ']') != Count(element, '[') then None else
      var a := DropEmptyTail(Pieces(Strip(element)));
      if a == [] then Some((None, [])) else
        var keys := KeysOf(a[1..]);
        if keys.None? then None else Some((Some(a[0]), keys.value))
  }

  // ---------- Printing ----------

  function KeyText(k: (string, string)): string { "[" + k.0 + "='" + k.1 + "']" }

  function KeysText(ks: seq<(string, string)>): string
  {
    if ks == [] then "" else KeyText(ks[0]) + KeysText(ks[1..])
  }

  function ElemText(e: Elem): string { e.name + KeysText(e.keys) }

  function Print(es: seq<Elem>): string
  {
    if es == [] then "" else "/" + ElemText(es[0]) + Print(es[1..])
  }

  predicate Free(s: string, cs: string) { forall i :: 0 <= i < |s| ==> s[i] !in cs }

  /** A name that the key pattern matches as a whole: word characters and hyphens. */
  predicate KeyName(n: string) { forall i :: 0 <= i < |n| ==> KeyChar(n[i]) }

  /** A key name has no equals sign, and neither name nor value has a bracket or a newline. */
  predicate CleanKey(k: (string, string)) { k.0 != "" && Free(k.0, "[]=\n") && Free(k.1, "[]\n") }

  /** Names without slash and brackets, and clean keys. */
  predicate Clean(e: Elem)
  {
    e.name != "" && Free(e.name, "/[]") && forall i :: 0 <= i < |e.keys| ==> CleanKey(e.keys[i])
  }

  // ---------- Printed text is split as it was put together ----------

  lemma {:induction false} RunConcat(st: Splitter, a: string, b: string)
    ensures Run(st, a + b) == Run(Run(st, a), b)
  {
    if b == "" {
      assert a + b == a;
    } else {
      assert (a + b)[..|a + b| - 1] == a + b[..|b| - 1];
      RunConcat(st, a, b[..|b| - 1]);
    }
  }

  lemma {:induction false} RunPlain(st: Splitter, s: string)
    requires Free(s, if st.inside then "[]" else "/[]")
    ensures Run(st, s) == st.(buffer := st.buffer + s)
  {
    if s == "" {
      assert st.buffer + s == st.buffer;
    } else {
      RunPlain(st, s[..|s| - 1]);
      assert s == s[..|s| - 1] + [s[|s| - 1]];
    }
  }

  lemma RunChar(st: Splitter, c: char)
    ensures Run(st, [c]) == Step(st, c)
  {
    assert [c][..0] == "";
  }

  /** A key in brackets passes through the splitter in one piece, slashes and all. */
  lemma RunKey(st: Splitter, k: (string, string))
    requires !st.inside && CleanKey(k)
    ensures Run(st, KeyText(k)) == st.(buffer := st.buffer + KeyText(k))
  {
    hide Run, Step;
    var inner := k.0 + "='" + k.1 + "'";
    var st1 := Splitter(st.result, st.buffer + "[", true);
    var st2 := st1.(buffer := st1.buffer + inner);
    assert KeyText(k) == "[" + inner + "]";
    assert Free(inner, "[]");
    OpenClose(st, st2);
    RunPlain(st1, inner);
    RunConcat(st, "[", inner);
    RunConcat(st, "[" + inner, "]");
    assert st.buffer + KeyText(k) == st2.buffer + "]";
  }

  lemma OpenClose(st: Splitter, st2: Splitter)
    requires !st.inside
    ensures Run(st, "[") == Splitter(st.result, st.buffer + "[", true)
    ensures Run(st2, "]") == Splitter(st2.result, st2.buffer + "]", false)
  {
    RunChar(st, '[');
    RunChar(st2, ']');
  }

  lemma {:induction false} RunKeys(st: Splitter, ks: seq<(string, string)>)
    requires !st.inside && forall i :: 0 <= i < |ks| ==> CleanKey(ks[i])
    ensures Run(st, KeysText(ks)) == st.(buffer := st.buffer + KeysText(ks))
    decreases |ks|
  {
    hide CleanKey, KeyText, Run;
    if ks == [] {
      assert st.buffer + KeysText(ks) == st.buffer;
      RunNothing(st);
    } else {
      RunKey(st, ks[0]);
      var st1 := st.(buffer := st.buffer + KeyText(ks[0]));
      RunKeys(st1, ks[1..]);
      RunConcat(st, KeyText(ks[0]), KeysText(ks[1..]));
      assert st.buffer + KeysText(ks) == st1.buffer + KeysText(ks[1..]);
    }
  }

  lemma RunNothing(st: Splitter)
    ensures Run(st, "") == st
  {
  }

  lemma RunElement(st: Splitter, e: Elem)
    requires !st.inside && Clean(e)
    ensures Run(st, "/" + ElemText(e)) == Splitter(Flush(st), ElemText(e), false)
  {
    hide CleanKey, KeyText, Run;
    var st1 := Splitter(Flush(st), "", false);
    Slash(st);
    RunPlain(st1, e.name);
    var st2 := st1.(buffer := st1.buffer + e.name);
    RunKeys(st2, e.keys);
    RunConcat(st1, e.name, KeysText(e.keys));
    RunConcat(st, "/", ElemText(e));
    assert st2.buffer + KeysText(e.keys) == ElemText(e);
  }

  lemma Slash(st: Splitter)
    requires !st.inside
    ensures Run(st, "/") == Splitter(Flush(st), "", false)
  {
    RunChar(st, '/');
  }

  function Texts(es: seq<Elem>): seq<string> { seq(|es|, i requires 0 <= i < |es| => ElemText(es[i])) }

  lemma {:induction false} RunElements(st: Splitter, es: seq<Elem>)
    requires !st.inside && forall i :: 0 <= i < |es| ==> Clean(es[i])
    ensures Flush(Run(st, Print(es))) == Flush(st) + Texts(es)
    decreases |es|
  {
    hide Clean, ElemText, Step;
    if es == [] {
      assert Flush(st) + Texts(es) == Flush(st);
    } else {
      RunElement(st, es[0]);
      NotEmpty(es[0]);
      var st1 := Splitter(Flush(st), ElemText(es[0]), false);
      RunElements(st1, es[1..]);
      RunConcat(st, "/" + ElemText(es[0]), Print(es[1..]));
      assert Flush(st) + Texts(es) == Flush(st1) + Texts(es[1..]);
    }
  }

  lemma NotEmpty(e: Elem)
    requires Clean(e)
    ensures ElemText(e) != ""
  {
  }

  /** Splitting printed text gives the elements back, even when key values contain slashes. */
  lemma SplitPrinted(es: seq<Elem>)
    requires forall i :: 0 <= i < |es| ==> Clean(es[i])
    ensures Split(Print(es)) == Texts(es)
  {
    hide Run, Print, Clean, Texts, Flush;
    RunElements(START, es);
    NothingBuffered();
    assert [] + Texts(es) == Texts(es);
  }

  lemma NothingBuffered()
    ensures Flush(START) == [] && !START.inside
  {
  }

  // ---------- Printed elements are taken apart as they were put together ----------

  lemma {:induction false} CountConcat(a: string, b: string, c: char)
    ensures Count(a + b, c) == Count(a, c) + Count(b, c)
  {
    if a == "" {
      assert a + b == b;
    } else {
      assert (a + b)[1..] == a[1..] + b;
      CountConcat(a[1..], b, c);
    }
  }

  lemma {:induction false} CountNone(a: string, c: char)
    requires forall i :: 0 <= i < |a| ==> a[i] != c
    ensures Count(a, c) == 0
  {
    if a != "" {
      CountNone(a[1..], c);
    }
  }

  lemma {:induction false} StripConcat(a: string, b: string)
    ensures Strip(a + b) == Strip(a) + Strip(b)
  {
    if a == "" {
      assert a + b == b;
    } else {
      assert (a + b)[1..] == a[1..] + b;
      StripConcat(a[1..], b);
    }
  }

  lemma {:induction false} StripPlain(a: string)
    requires forall i :: 0 <= i < |a| ==> a[i] != ']'
    ensures Strip(a) == a
  {
    if a != "" {
      StripPlain(a[1..]);
    }
  }

  function Inner(k: (string, string)): string { k.0 + "='" + k.1 + "'" }

  function Inners(ks: seq<(string, string)>): string
  {
    if ks == [] then "" else "[" + Inner(ks[0]) + Inners(ks[1..])
  }

  lemma InnerIsPlain(k: (string, string))
    requires CleanKey(k)
    ensures Free(Inner(k), "[]\n")
  {
  }

  lemma KeyTextIs(k: (string, string))
    requires CleanKey(k)
    ensures Count(KeyText(k), ']') == 1 && Count(KeyText(k), '[') == 1 && Strip(KeyText(k)) == "[" + Inner(k)
  {
    hide CleanKey;
    var inner := Inner(k);
    InnerIsPlain(k);
    assert KeyText(k) == ("[" + inner) + "]";
    CountConcat("[" + inner, "]", '[');
    CountConcat("[" + inner, "]", ']');
    CountConcat("[", inner, '[');
    CountConcat("[", inner, ']');
    CountNone(inner, '[');
    CountNone(inner, ']');
    StripConcat("[" + inner, "]");
    StripPlain("[" + inner);
  }

  lemma {:induction false} KeysTextIs(ks: seq<(string, string)>)
    requires forall i :: 0 <= i < |ks| ==> CleanKey(ks[i])
    ensures Count(KeysText(ks), ']') == Count(KeysText(ks), '[') && Strip(KeysText(ks)) == Inners(ks)
  {
    hide CleanKey, KeyText, Inner;
    if ks != [] {
      KeyTextIs(ks[0]);
      KeysTextIs(ks[1..]);
      CountConcat(KeyText(ks[0]), KeysText(ks[1..]), ']');
      CountConcat(KeyText(ks[0]), KeysText(ks[1..]), '[');
      StripConcat(KeyText(ks[0]), KeysText(ks[1..]));
    }
  }

  lemma {:induction false} FirstUnique(s: string, c: char, n: nat)
    requires n < |s| && s[n] == c && forall j :: 0 <= j < n ==> s[j] != c
    ensures First(s, c) == n
  {
    if n > 0 {
      FirstUnique(s[1..], c, n - 1);
    }
  }

  lemma FirstNone(p: string, c: char)
    requires forall i :: 0 <= i < |p| ==> p[i] != c
    ensures First(p, c) == |p|
  {
  }

  lemma NextPiece(p: string, rest: string)
    requires Free(p, "[]")
    ensures Pieces(p + "[" + rest) == [p] + Pieces(rest)
  {
    var s := p + "[" + rest;
    assert forall j :: 0 <= j < |p| ==> s[j] == p[j];
    FirstUnique(s, '[', |p|);
    assert s[|p| + 1..] == rest && s[..|p|] == p;
  }

  lemma LastPiece(p: string)
    requires Free(p, "[]")
    ensures Pieces(p) == [p]
  {
    FirstNone(p, '[');
  }

  function InnerList(ks: seq<(string, string)>): (r: seq<string>)
    ensures |r| == |ks|
  {
    if ks == [] then [] else [Inner(ks[0])] + InnerList(ks[1..])
  }

  lemma {:induction false} PiecesAre(p: string, ks: seq<(string, string)>)
    requires Free(p, "[]") && forall i :: 0 <= i < |ks| ==> CleanKey(ks[i])
    ensures Pieces(p + Inners(ks)) == [p] + InnerList(ks)
    decreases |ks|
  {
    hide CleanKey, Inner, Pieces;
    if ks == [] {
      assert p + Inners(ks) == p;
      LastPiece(p);
    } else {
      var rest := Inner(ks[0]) + Inners(ks[1..]);
      assert p + Inners(ks) == p + "[" + rest;
      NextPiece(p, rest);
      InnerIsPlain(ks[0]);
      PiecesAre(Inner(ks[0]), ks[1..]);
    }
  }

  lemma {:induction false} KeyEndIs(x: string, i: nat, n: nat)
    requires i <= n < |x| && !KeyChar(x[n]) && forall j :: i <= j < n ==> KeyChar(x[j])
    ensures KeyEnd(x, i) == n
    decreases n - i
  {
    if i < n {
      KeyEndIs(x, i + 1, n);
    }
  }

  lemma QuotedIs(v: string)
    ensures Quoted("'" + v + "'", '\'') == Some(v)
  {
    var t := "'" + v + "'";
    assert First(t, '\'') == 0 && Last(t, '\'') == |t|;
    assert t[1..|t| - 1] == v;
  }

  lemma KeyOfInner(k: (string, string))
    requires k.0 != "" && KeyName(k.0) && '\n' !in k.1
    ensures KeyOf(Inner(k)) == Some(k)
  {
    hide Inner, FindKey, First, Unquote, KeyName;
    InnerParts(k);
    FindKeyOfInner(k);
    var v := "'" + k.1 + "'";
    FirstNone(v, '\n');
    assert v[..|v|] == v;
    UnquoteIs(k.1);
  }

  /** What stands where in the text of a key. */
  lemma InnerParts(k: (string, string))
    ensures var x, n := Inner(k), |k.0|;
            && |x| == n + |k.1| + 3 && x[..n] == k.0 && x[n] == '=' && x[n + 1] == '\''
            && x[n + 1..] == "'" + k.1 + "'"
  {
    assert Inner(k) == k.0 + "=" + ("'" + k.1 + "'");
  }

  lemma FindKeyOfInner(k: (string, string))
    requires k.0 != "" && KeyName(k.0)
    ensures FindKey(Inner(k), 0) == Some((0, |k.0|, |k.0| + 1))
  {
    hide Inner;
    var x, n := Inner(k), |k.0|;
    InnerParts(k);
    assert forall j :: 0 <= j < n ==> x[j] == x[..n][j];
    KeyEndIs(x, 0, n);
  }

  lemma UnquoteIs(v: string)
    ensures Unquote("'" + v + "'") == v
  {
    hide Quoted;
    QuotedIs(v);
  }

  lemma {:induction false} KeyEndRuns(x: string, i: nat)
    requires i <= |x|
    ensures forall j :: i <= j < KeyEnd(x, i) ==> KeyChar(x[j])
    decreases |x| - i
  {
    if i < |x| && KeyChar(x[i]) {
      KeyEndRuns(x, i + 1);
    }
  }

  lemma {:induction false} FindKeyRuns(x: string, i: nat)
    requires i <= |x|
    ensures var m := FindKey(x, i); m.Some? ==> KeyName(x[m.value.0..m.value.1])
    decreases |x| - i
  {
    if i < |x| {
      KeyEndRuns(x, i);
      FindKeyRuns(x, i + 1);
    }
  }

  /** Whatever the text, the name read has word characters and hyphens only. */
  lemma ReadIsKeyName(x: string)
    ensures KeyOf(x).Some? ==> KeyOf(x).value.0 != "" && KeyName(KeyOf(x).value.0)
  {
    hide KeyName;
    FindKeyRuns(x, 0);
  }

  /** A printed key is read as it was iff its name has word characters and hyphens only; a dot, say, cuts it. */
  lemma KeyReadIff(k: (string, string))
    requires k.0 != "" && '\n' !in k.1
    ensures KeyOf(Inner(k)) == Some(k) <==> KeyName(k.0)
  {
    hide KeyOf, Inner, KeyName;
    ReadIsKeyName(Inner(k));
    if KeyName(k.0) {
      KeyOfInner(k);
    }
  }

  lemma {:induction false} KeyEndStops(x: string, i: nat, n: nat)
    requires i <= n < |x| && !KeyChar(x[n])
    ensures KeyEnd(x, i) <= n
    decreases n - i
  {
    if i < n && KeyChar(x[i]) {
      KeyEndStops(x, i + 1, n);
    }
  }

  lemma {:induction false} SpaceEndStops(x: string, i: nat, n: nat)
    requires i <= n < |x| && !Space(x[n])
    ensures SpaceEnd(x, i) <= n
    decreases n - i
  {
    if i < n && Space(x[i]) {
      SpaceEndStops(x, i + 1, n);
    }
  }

  /** No name is found before position n, which the pattern does not match, when a word follows it. */
  lemma {:induction false} FindKeySkips(x: string, i: nat, n: nat)
    requires i <= n && n + 1 < |x| && !KeyChar(x[n]) && KeyChar(x[n + 1]) && forall j :: i <= j <= n ==> x[j] != '='
    ensures FindKey(x, i) == FindKey(x, n + 1)
    decreases n - i
  {
    hide KeyEnd, SpaceEnd;
    KeyEndStops(x, i, n);
    SpaceEndStops(x, KeyEnd(x, i), n + 1);
    if i < n {
      FindKeySkips(x, i + 1, n);
    }
  }

  function Shift(n: nat, r: Option<(nat, nat, nat)>): Option<(nat, nat, nat)>
  {
    if r.None? then None else Some((n + r.value.0, n + r.value.1, n + r.value.2))
  }

  lemma {:induction false} FindKeyShift(a: string, x: string, i: nat)
    requires i <= |x|
    ensures FindKey(a + x, |a| + i) == Shift(|a|, FindKey(x, i))
    decreases |x| - i
  {
    hide KeyAt;
    if i < |x| {
      FindKeyShift(a, x, i + 1);
      KeyAtShift(a, x, i);
    }
  }

  lemma KeyAtShift(a: string, x: string, i: nat)
    requires i <= |x|
    ensures KeyAt(a + x, |a| + i) == Shift(|a|, KeyAt(x, i))
  {
    hide KeyEnd, SpaceEnd;
    var j := KeyEnd(x, i);
    var k := SpaceEnd(x, j);
    EndsShift(a, x, i);
    EndsShift(a, x, j);
    if k < |x| {
      assert (a + x)[|a| + k] == x[k];
      EndsShift(a, x, k + 1);
    }
  }

  lemma {:induction false} EndsShift(a: string, x: string, i: nat)
    requires i <= |x|
    ensures KeyEnd(a + x, |a| + i) == |a| + KeyEnd(x, i) && SpaceEnd(a + x, |a| + i) == |a| + SpaceEnd(x, i)
    decreases |x| - i
  {
    if i < |x| {
      assert (a + x)[|a| + i] == x[i];
      EndsShift(a, x, i + 1);
    }
  }

  lemma KeyOfShift(x: string, z: string)
    requires FindKey(x + z, 0) == Shift(|x|, FindKey(z, 0))
    ensures KeyOf(x + z) == KeyOf(z)
  {
    hide FindKey, Unquote, First;
    var m := FindKey(z, 0);
    if m.Some? {
      assert (x + z)[|x| + m.value.2..] == z[m.value.2..];
      assert (x + z)[|x| + m.value.0..|x| + m.value.1] == z[m.value.0..m.value.1];
    }
  }

  /** A longer name is read from behind its last character that the pattern does not match. */
  lemma NameIsCut(a: string, d: char, k: (string, string))
    requires k.0 != "" && KeyName(k.0) && '\n' !in k.1 && !KeyChar(d) && '=' !in a + [d]
    ensures KeyOf(Inner((a + [d] + k.0, k.1))) == Some(k)
  {
    hide FindKey, KeyOf;
    var x := a + [d];
    var y := x + Inner(k);
    assert Inner((x + k.0, k.1)) == y;
    assert y[|a|] == d && y[|a| + 1] == k.0[0];
    assert forall j :: 0 <= j <= |a| ==> y[j] == x[j];
    FindKeySkips(y, 0, |a|);
    FindKeyShift(x, Inner(k), 0);
    KeyOfShift(x, Inner(k));
    KeyOfInner(k);
  }

  predicate KeyNames(ks: seq<(string, string)>) { forall i :: 0 <= i < |ks| ==> KeyName(ks[i].0) }

  lemma {:induction false} KeysOfInners(ks: seq<(string, string)>)
    requires forall i :: 0 <= i < |ks| ==> CleanKey(ks[i])
    ensures var r := KeysOf(InnerList(ks));
            && (KeyNames(ks) ==> r == Some(ks)) && (r.Some? ==> |r.value| == |ks| && KeyNames(r.value))
  {
    hide CleanKey, Inner, KeyOf, KeyName;
    if ks != [] {
      KeysOfInners(ks[1..]);
      ReadIsKeyName(Inner(ks[0]));
      CleanRead(ks[0]);
      assert KeyNames(ks) ==> KeyName(ks[0].0) && KeyNames(ks[1..]);
      assert ks == [ks[0]] + ks[1..];
    }
  }

  lemma CleanRead(k: (string, string))
    requires CleanKey(k)
    ensures KeyName(k.0) ==> KeyOf(Inner(k)) == Some(k)
  {
    hide KeyOf, Inner, KeyName;
    KeyReadIff(k);
  }

  lemma {:induction false} LastInner(ks: seq<(string, string)>)
    requires ks != []
    ensures InnerList(ks)[|ks| - 1] != ""
  {
    if |ks| > 1 {
      LastInner(ks[1..]);
    } else {
      InnerNotEmpty(ks[0]);
    }
  }

  lemma InnerNotEmpty(k: (string, string))
    ensures Inner(k) != ""
  {
  }

  /** The pieces of a printed element are its name and what stands in its brackets. */
  lemma PiecesPrinted(e: Elem)
    requires Clean(e)
    ensures Count(ElemText(e), ']') == Count(ElemText(e), '[')
    ensures Pieces(Strip(ElemText(e))) == [e.name] + InnerList(e.keys)
  {
    hide Inner, CleanKey, Pieces, Strip, Count;
    var keys := KeysText(e.keys);
    KeysTextIs(e.keys);
    CountConcat(e.name, keys, ']');
    CountConcat(e.name, keys, '[');
    CountNone(e.name, ']');
    CountNone(e.name, '[');
    StripConcat(e.name, keys);
    StripPlain(e.name);
    PiecesAre(e.name, e.keys);
  }

  /**
   Taking a printed element apart gives its name and keys back when the key pattern matches their names. Other names
   are lost: as many keys are read, if any, all with names that the pattern matches.
   */
  lemma ElementSplitPrinted(e: Elem)
    requires Clean(e)
    ensures var r := ElementSplit(ElemText(e));
            && (KeyNames(e.keys) ==> r == Some((Some(e.name), e.keys)))
            && (r.Some? ==> r.value.0 == Some(e.name) && |r.value.1| == |e.keys| && KeyNames(r.value.1))
  {
    hide Inner, CleanKey, Pieces, KeysOf, Strip, Count, KeyNames;
    PiecesPrinted(e);
    var a := [e.name] + InnerList(e.keys);
    if e.keys != [] {
      LastInner(e.keys);
    }
    assert DropEmptyTail(a) == a;
    KeysOfInners(e.keys);
    assert a[1..] == InnerList(e.keys);
  }

  lemma InnerInjective(k: (string, string), l: (string, string))
    requires CleanKey(k) && CleanKey(l) && Inner(k) == Inner(l)
    ensures k == l
  {
    var x := Inner(k);
    assert forall j :: 0 <= j < |k.0| ==> x[j] == k.0[j];
    assert forall j :: 0 <= j < |l.0| ==> x[j] == l.0[j];
    FirstUnique(x, '=', |k.0|);
    FirstUnique(x, '=', |l.0|);
    assert k.0 == x[..|k.0|] && l.0 == x[..|l.0|];
    assert k.1 == x[|k.0| + 2..|x| - 1] && l.1 == x[|l.0| + 2..|x| - 1];
  }

  lemma {:induction false} InnerListInjective(ks: seq<(string, string)>, ls: seq<(string, string)>)
    requires (forall i :: 0 <= i < |ks| ==> CleanKey(ks[i])) && (forall i :: 0 <= i < |ls| ==> CleanKey(ls[i]))
    requires InnerList(ks) == InnerList(ls)
    ensures ks == ls
  {
    hide CleanKey, Inner;
    if ks != [] {
      assert InnerList(ks)[0] == Inner(ks[0]) && InnerList(ls)[0] == Inner(ls[0]);
      InnerInjective(ks[0], ls[0]);
      assert InnerList(ks[1..]) == InnerList(ks)[1..] && InnerList(ls[1..]) == InnerList(ls)[1..];
      InnerListInjective(ks[1..], ls[1..]);
      assert ks == [ks[0]] + ks[1..] && ls == [ls[0]] + ls[1..];
    }
  }

  lemma ElementInjective(e: Elem, d: Elem)
    requires Clean(e) && Clean(d) && ElemText(e) == ElemText(d)
    ensures e == d
  {
    hide CleanKey, Pieces, Strip, ElemText;
    PiecesPrinted(e);
    PiecesPrinted(d);
    var a, b := [e.name] + InnerList(e.keys), [d.name] + InnerList(d.keys);
    assert a[0] == b[0] && a[1..] == b[1..];
    InnerListInjective(e.keys, d.keys);
  }

  /** Different lists of elements are printed differently. */
  lemma PrintInjective(es: seq<Elem>, ds: seq<Elem>)
    requires (forall i :: 0 <= i < |es| ==> Clean(es[i])) && (forall i :: 0 <= i < |ds| ==> Clean(ds[i]))
    requires Print(es) == Print(ds)
    ensures es == ds
  {
    hide Clean, Print, ElemText, Split;
    SplitPrinted(es);
    SplitPrinted(ds);
    forall i | 0 <= i < |es|
      ensures es[i] == ds[i]
    {
      assert Texts(es)[i] == Texts(ds)[i];
      ElementInjective(es[i], ds[i]);
    }
  }

  lemma SampleKeys()
    ensures ElemText(Elem("b", [("k", "v"), ("i", "1")])) == "b[k='v'][i='1']"
  {
    var k, l := ("k", "v"), ("i", "1");
    assert [k, l][1..] == [l] && [l][1..] == [];
    assert KeyText(k) == "[k='v']" && KeyText(l) == "[i='1']";
    hide KeyText;
    assert KeysText([l]) == KeyText(l) + "" == KeyText(l);
    assert KeysText([k, l]) == KeyText(k) + KeyText(l);
  }

  lemma PrintTwo(a: Elem, b: Elem)
    ensures Print([a, b]) == "/" + ElemText(a) + ("/" + ElemText(b))
  {
    hide ElemText;
    assert [a, b][1..] == [b] && [b][1..] == [];
    assert Print([b]) == "/" + ElemText(b) + Print([]) == "/" + ElemText(b);
  }

  /** How such a text looks. */
  lemma SamplePrinted()
    ensures Print([Elem("m:a", []), Elem("b", [("k", "v"), ("i", "1")])]) == "/m:a/b[k='v'][i='1']"
  {
    var top, user := Elem("m:a", []), Elem("b", [("k", "v"), ("i", "1")]);
    SampleKeys();
    PrintTwo(top, user);
    assert ElemText(top) == "m:a";
    hide Print, ElemText;
  }
}
