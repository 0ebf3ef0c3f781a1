// Dotted-decimal OID text: the string work of enc_oid, parse_oid and walk.
module Dotted {
  import opened Results

  type Arcs = seq<nat>

  // ---------- Rendering: ".".join(str(p) for p in parts) ----------

  function DigitChar(d: nat): char
    requires d < 10
  {
    '0' + d as char
  }

  function Decimal(n: nat): (s: string)
    ensures s != []
  {
    if n < 10 then [DigitChar(n)] else Decimal(n / 10) + [DigitChar(n % 10)]
  }

  function Render(arcs: Arcs): string {
    if arcs == [] then ""
    else if |arcs| == 1 then Decimal(arcs[0])
    else Decimal(arcs[0]) + "." + Render(arcs[1..])
  }

  // ---------- Parsing: [int(p) for p in oid.split(".") if p != ""] ----------

  // The non-empty pieces between dots; `piece` is the one being read.
  function Pieces(text: string, piece: string): seq<string> {
    if text == "" then (if piece == "" then [] else [piece])
    else if text[0] == '.' then (if piece == "" then [] else [piece]) + Pieces(text[1..], "")
    else Pieces(text[1..], piece + [text[0]])
  }

  // int(p) on plain decimal digits; anything else raises ValueError.
  function Int(piece: string): Result<nat> {
    if piece == "" then Ok(0)
    else
      var last := piece[|piece| - 1];
      if !('0' <= last <= '9') then Err(ValueError)
      else
        var high :- Int(piece[..|piece| - 1]);
        Ok(high * 10 + (last - '0') as nat)
  }

  function Ints(pieces: seq<string>): Result<Arcs> {
    if pieces == [] then Ok([])
    else
      var first :- Int(pieces[0]);
      var rest :- Ints(pieces[1..]);
      Ok([first] + rest)
  }

  function ParseDotted(text: string): Result<Arcs> {
    Ints(Pieces(text, ""))
  }

  // text.strip(".")
  function Strip(text: string): string {
    if text != "" && text[0] == '.' then Strip(text[1..])
    else if text != "" && text[|text| - 1] == '.' then Strip(text[..|text| - 1])
    else text
  }

  predicate StartsWith(text: string, prefix: string) {
    prefix <= text
  }

  // ---------- Parsing undoes rendering ----------

  lemma Assoc<T>(a: seq<T>, b: seq<T>, c: seq<T>)
    ensures a + (b + c) == (a + b) + c
  {
  }

  predicate NoDot(s: string) {
    forall i :: 0 <= i < |s| ==> s[i] != '.'
  }

  lemma {:induction false} DecimalDigits(n: nat)
    ensures NoDot(Decimal(n))
    ensures Int(Decimal(n)) == Ok(n)
  {
    var s := Decimal(n);
    if n < 10 {
      assert s[..0] == "";
    } else {
      DecimalDigits(n / 10);
      assert s[..|s| - 1] == Decimal(n / 10);
    }
  }

  lemma {:induction false} PiecesOfWord(word: string, tail: string, piece: string)
    requires NoDot(word)
    ensures Pieces(word + tail, piece) == Pieces(tail, piece + word)
    decreases |word|
  {
    if word == "" {
      assert word + tail == tail && piece + word == piece;
    } else {
      assert (word + tail)[0] == word[0];
      assert (word + tail)[1..] == word[1..] + tail;
      PiecesOfWord(word[1..], tail, piece + [word[0]]);
      assert piece + [word[0]] + word[1..] == piece + word;
    }
  }

  function Words(arcs: Arcs): seq<string> {
    if arcs == [] then [] else [Decimal(arcs[0])] + Words(arcs[1..])
  }

  // Every arc followed by a dot.
  function Stems(arcs: Arcs): string {
    if arcs == [] then "" else Decimal(arcs[0]) + "." + Stems(arcs[1..])
  }

  lemma {:induction false} PiecesOfStems(arcs: Arcs, tail: string)
    ensures Pieces(Stems(arcs) + tail, "") == Words(arcs) + Pieces(tail, "")
  {
    if arcs == [] {
      assert Stems(arcs) + tail == tail;
    } else {
      hide Decimal;
      var rest := Stems(arcs[1..]) + tail;
      Assoc(Decimal(arcs[0]), ".", Stems(arcs[1..]));
      Assoc(Decimal(arcs[0]), "." + Stems(arcs[1..]), tail);
      Assoc(".", Stems(arcs[1..]), tail);
      assert Stems(arcs) + tail == Decimal(arcs[0]) + ("." + rest);
      DecimalDigits(arcs[0]);
      PiecesOfWord(Decimal(arcs[0]), "." + rest, "");
      assert ("." + rest)[1..] == rest;
      assert "" + Decimal(arcs[0]) == Decimal(arcs[0]);
      PiecesOfStems(arcs[1..], tail);
    }
  }

  lemma {:induction false} RenderStems(arcs: Arcs, last: nat)
    ensures Render(arcs + [last]) == Stems(arcs) + Decimal(last)
  {
    if arcs == [] {
    } else {
      RenderStems(arcs[1..], last);
      assert (arcs + [last])[1..] == arcs[1..] + [last];
      Assoc(Decimal(arcs[0]) + ".", Stems(arcs[1..]), Decimal(last));
    }
  }

  lemma {:induction false} IntsOfWords(arcs: Arcs, tail: seq<string>)
    ensures Ints(Words(arcs) + tail) ==
            (var r := Ints(tail); if r.Ok? then Ok(arcs + r.value) else r)
  {
    if arcs == [] {
      assert Words(arcs) + tail == tail;
      var r := Ints(tail);
      assert r.Ok? ==> arcs + r.value == r.value;
    } else {
      DecimalDigits(arcs[0]);
      IntsOfWords(arcs[1..], tail);
      assert (Words(arcs) + tail)[1..] == Words(arcs[1..]) + tail;
      if Ints(tail).Ok? {
        Assoc([arcs[0]], arcs[1..], Ints(tail).value);
        assert [arcs[0]] + arcs[1..] == arcs;
      }
    }
  }

  lemma {:induction false} WordsAppend(a: Arcs, b: Arcs)
    ensures Words(a + b) == Words(a) + Words(b)
  {
    if a == [] {
      assert a + b == b;
    } else {
      WordsAppend(a[1..], b);
      assert (a + b)[1..] == a[1..] + b;
      Assoc([Decimal(a[0])], Words(a[1..]), Words(b));
    }
  }

  lemma PiecesOfRender(arcs: Arcs)
    ensures Pieces(Render(arcs), "") == Words(arcs)
  {
    if arcs != [] {
      var init, last := arcs[..|arcs| - 1], arcs[|arcs| - 1];
      assert arcs == init + [last];
      RenderStems(init, last);
      PiecesOfStems(init, Decimal(last));
      DecimalDigits(last);
      PiecesOfWord(Decimal(last), "", "");
      assert Decimal(last) + "" == Decimal(last) && "" + Decimal(last) == Decimal(last);
      WordsAppend(init, [last]);
    }
  }

  // Reading back what parse_oid printed gives the same arcs.
  lemma ParseRender(arcs: Arcs)
    ensures ParseDotted(Render(arcs)) == Ok(arcs)
  {
    PiecesOfRender(arcs);
    IntsOfWords(arcs, []);
    assert Words(arcs) + [] == Words(arcs) && arcs + [] == arcs;
  }

  lemma RenderInjective(a: Arcs, b: Arcs)
    requires Render(a) == Render(b)
    ensures a == b
  {
    ParseRender(a);
    ParseRender(b);
  }

  // ---------- The prefix test of walk ----------

  predicate Under(base: Arcs, oid: Arcs) {
    |base| < |oid| && base == oid[..|base|]
  }

  lemma {:induction false} RenderAppend(a: Arcs, b: Arcs)
    requires b != []
    ensures Render(a + b) == Stems(a) + Render(b)
  {
    if a == [] {
      assert a + b == b;
    } else {
      RenderAppend(a[1..], b);
      assert (a + b)[1..] == a[1..] + b;
      Assoc(Decimal(a[0]) + ".", Stems(a[1..]), Render(b));
    }
  }

  lemma RenderDot(a: Arcs)
    requires a != []
    ensures Render(a) + "." == Stems(a)
  {
    var init, last := a[..|a| - 1], a[|a| - 1];
    assert a == init + [last];
    RenderStems(init, last);
    StemsAppend(init, [last]);
    assert Stems([last]) == Decimal(last) + "." + "";
  }

  lemma {:induction false} StemsAppend(a: Arcs, b: Arcs)
    ensures Stems(a + b) == Stems(a) + Stems(b)
  {
    if a == [] {
      assert a + b == b;
    } else {
      StemsAppend(a[1..], b);
      assert (a + b)[1..] == a[1..] + b;
      var head := Decimal(a[0]) + ".";
      Assoc(head, Stems(a[1..]), Stems(b));
    }
  }

  lemma SubtreeHasPrefix(base: Arcs, oid: Arcs)
    requires base != [] && Under(base, oid)
    ensures Render(oid) == Render(base) + "." + Render(oid[|base|..])
  {
    RenderDot(base);
    assert oid == base + oid[|base|..];
    RenderAppend(base, oid[|base|..]);
  }

  lemma PrefixInSubtree(base: Arcs, oid: Arcs, tail: string)
    requires base != [] && Render(oid) == Stems(base) + tail
    ensures Under(base, oid)
  {
    PiecesOfStems(base, tail);
    PiecesOfRender(oid);
    IntsOfWords(base, Pieces(tail, ""));
    ParseRender(oid);
    var rest := Ints(Pieces(tail, "")).value;
    assert oid == base + rest;
    RenderDot(base);
    assert |Render(base)| < |Stems(base)| <= |Render(oid)|;
    assert base + [] == base;
  }

  // oid.startswith(base + ".") on text is the subtree relation on arcs, and the
  // text after the prefix is the index suffix.
  lemma PrefixIsSubtree(base: Arcs, oid: Arcs)
    requires base != []
    ensures StartsWith(Render(oid), Render(base) + ".") <==> Under(base, oid)
    ensures Under(base, oid) ==> Render(oid)[|Render(base)| + 1..] == Render(oid[|base|..])
  {
    if Under(base, oid) {
      SubtreeHasPrefix(base, oid);
    }
    RenderDot(base);
    if StartsWith(Render(oid), Render(base) + ".") {
      PrefixInSubtree(base, oid, Render(oid)[|Stems(base)|..]);
    }
  }

  // A rendered OID has no outer dots to strip.
  lemma StripRender(arcs: Arcs)
    ensures Strip(Render(arcs)) == Render(arcs)
  {
    if arcs != [] {
      DecimalDigits(arcs[0]);
      assert Render(arcs)[0] == Decimal(arcs[0])[0];
      var init, last := arcs[..|arcs| - 1], arcs[|arcs| - 1];
      assert arcs == init + [last];
      RenderStems(init, last);
      DecimalDigits(last);
      assert Render(arcs)[|Render(arcs)| - 1] == Decimal(last)[|Decimal(last)| - 1];
    }
  }
}
