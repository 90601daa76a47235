/** Chunk boundaries as text: column values joined by commas, and split again. */
module BoundaryText {

  /** The concatenation the boundary queries select. */
  function Joined(parts: seq<string>): string
    requires parts != []
  {
    if |parts| == 1 then parts[0] else Joined(parts[..|parts| - 1]) + "," + parts[|parts| - 1]
  }

  /** `strings.Split` at commas. */
  function Split(text: string): (parts: seq<string>)
    ensures parts != []
  {
    if text == "" then [""]
    else
      var front, last := Split(text[..|text| - 1]), text[|text| - 1];
      if last == ',' then front + [""] else front[|front| - 1 := front[|front| - 1] + [last]]
  }

  /** The white space of Unicode. */
  predicate IsSpace(c: char) {
    || c == ' ' || '\t' <= c <= '\r' || c == '\U{85}' || c == '\U{A0}' || c == '\U{1680}' || '\U{2000}' <= c <= '\U{200A}'
    || c == '\U{2028}' || c == '\U{2029}' || c == '\U{202F}' || c == '\U{205F}' || c == '\U{3000}'
  }

  /** `strings.TrimSpace`. */
  function Trim(text: string): string
    decreases |text|
  {
    if text == "" then ""
    else if IsSpace(text[0]) then Trim(text[1..])
    else if IsSpace(text[|text| - 1]) then Trim(text[..|text| - 1])
    else text
  }

  /** What is cut off at either end is space, and what is left neither begins nor ends with one. */
  lemma {:induction false} TrimIsSlice(text: string) returns (i: nat, j: nat)
    ensures i <= j <= |text| && Trim(text) == text[i..j]
    ensures forall k :: 0 <= k < i || j <= k < |text| ==> IsSpace(text[k])
    ensures i < j ==> !IsSpace(text[i]) && !IsSpace(text[j - 1])
    decreases |text|
  {
    hide IsSpace;
    i, j := 0, |text|;
    if text != "" && IsSpace(text[0]) {
      var rest := text[1..];
      i, j := TrimIsSlice(rest);
      assert forall k :: 0 < k < |text| ==> text[k] == rest[k - 1];
      assert rest[i..j] == text[i + 1..j + 1];
      i, j := i + 1, j + 1;
    } else if text != "" && IsSpace(text[|text| - 1]) {
      i, j := TrimIsSlice(text[..|text| - 1]);
      assert text[..|text| - 1][i..j] == text[i..j];
    } else {
      assert text[0..|text|] == text;
    }
  }

  /** Which characters count as space. */
  lemma SpaceTable(c: char)
    ensures IsSpace(c) <==> (
      || c as int in {9, 10, 11, 12, 13, 32, 0x85, 0xA0, 0x1680, 0x2028, 0x2029, 0x202F, 0x205F, 0x3000}
      || 0x2000 <= c as int <= 0x200A)
  {
  }

  /** `splitBoundaryValues`. */
  method SplitBoundary(text: string) returns (parts: seq<string>)
    ensures parts == Trimmed(Split(text))
    ensures |parts| == |Split(text)| && forall k :: 0 <= k < |parts| ==> parts[k] == Trim(Split(text)[k])
  {
    parts := Split(text);
    ghost var whole := parts;
    for i := 0 to |parts|
      invariant |parts| == |whole|
      invariant forall j :: 0 <= j < |whole| ==> parts[j] == if j < i then Trim(whole[j]) else whole[j]
    {
      parts := parts[i := Trim(parts[i])];
    }
  }

  function Trimmed(parts: seq<string>): seq<string> {
    seq(|parts|, i requires 0 <= i < |parts| => Trim(parts[i]))
  }

  function Commas(text: string): nat {
    if text == "" then 0 else Commas(text[..|text| - 1]) + if text[|text| - 1] == ',' then 1 else 0
  }

  function CommasIn(parts: seq<string>): nat {
    if parts == [] then 0 else CommasIn(parts[..|parts| - 1]) + Commas(parts[|parts| - 1])
  }

  /** The parts hold no comma, and joined by commas they are the text again. */
  lemma {:induction false} SplitRejoins(text: string)
    ensures Joined(Split(text)) == text && forall p :: p in Split(text) ==> ',' !in p
    decreases |text|
  {
    if text != "" {
      var front, last := Split(text[..|text| - 1]), text[|text| - 1];
      var n := |front| - 1;
      SplitRejoins(text[..|text| - 1]);
      assert text == text[..|text| - 1] + [last];
      if last == ',' {
        assert (front + [""])[..|front|] == front;
        assert Joined(front + [""]) == text;
      } else {
        var parts := front[n := front[n] + [last]];
        assert parts[..n] == front[..n] && front[n] in front;
        assert forall p :: p in parts ==> p in front || p == front[n] + [last];
        if n > 0 { assert Joined(front[..n]) + "," + (front[n] + [last]) == Joined(front) + [last]; }
      }
    }
  }

  lemma {:induction false} SplitCounts(text: string)
    ensures |Split(text)| == Commas(text) + 1
    decreases |text|
  {
    if text != "" { SplitCounts(text[..|text| - 1]); }
  }

  lemma {:induction false} CommasAdd(a: string, b: string)
    ensures Commas(a + b) == Commas(a) + Commas(b)
    decreases |b|
  {
    if b == "" {
      assert a + b == a;
    } else {
      assert (a + b)[..|a + b| - 1] == a + b[..|b| - 1];
      CommasAdd(a, b[..|b| - 1]);
    }
  }

  lemma {:induction false} JoinedCommas(parts: seq<string>)
    requires parts != []
    ensures Commas(Joined(parts)) == CommasIn(parts) + |parts| - 1
    decreases |parts|
  {
    var n := |parts| - 1;
    if n == 0 {
      assert parts[..0] == [];
    } else {
      JoinedCommas(parts[..n]);
      CommasAdd(Joined(parts[..n]) + ",", parts[n]);
      CommasAdd(Joined(parts[..n]), ",");
      assert Commas(",") == 1 by { assert ","[..0] == ""; }
    }
  }

  lemma {:induction false} NoCommas(text: string)
    ensures Commas(text) == 0 <==> ',' !in text
    decreases |text|
  {
    if text != "" {
      NoCommas(text[..|text| - 1]);
      assert text == text[..|text| - 1] + [text[|text| - 1]];
    }
  }

  lemma {:induction false} NoCommasIn(parts: seq<string>)
    ensures CommasIn(parts) == 0 <==> forall p :: p in parts ==> ',' !in p
    decreases |parts|
  {
    if parts != [] {
      var n := |parts| - 1;
      NoCommasIn(parts[..n]);
      NoCommas(parts[n]);
      assert parts == parts[..n] + [parts[n]];
    }
  }

  /** A tail without commas stays in the last part. */
  lemma {:induction false} SplitTail(text: string, tail: string)
    requires ',' !in tail
    ensures Split(text + tail) == Split(text)[|Split(text)| - 1 := Split(text)[|Split(text)| - 1] + tail]
    decreases |tail|
  {
    if tail == "" {
      assert text + tail == text;
      assert Split(text)[|Split(text)| - 1] + "" == Split(text)[|Split(text)| - 1];
    } else {
      var front, last := tail[..|tail| - 1], tail[|tail| - 1];
      assert last in tail && forall c :: c in front ==> c in tail;
      SplitTail(text, front);
      assert (text + tail)[..|text + tail| - 1] == text + front;
      assert Split(text)[|Split(text)| - 1] + front + [last] == Split(text)[|Split(text)| - 1] + tail;
    }
  }

  lemma {:induction false} SplitJoined(parts: seq<string>)
    requires parts != [] && forall p :: p in parts ==> ',' !in p
    ensures Split(Joined(parts)) == parts
    decreases |parts|
  {
    var n := |parts| - 1;
    assert parts[n] in parts;
    if n == 0 {
      SplitTail("", parts[0]);
      assert "" + parts[0] == parts[0];
    } else {
      var front := parts[..n];
      assert forall p :: p in front ==> p in parts;
      SplitJoined(front);
      var head := Joined(front) + ",";
      assert head[..|head| - 1] == Joined(front);
      assert Split(head) == front + [""];
      SplitTail(head, parts[n]);
      assert Split(Joined(parts)) == (front + [""])[n := "" + parts[n]];
      assert "" + parts[n] == parts[n];
    }
  }

  /** The parts of a boundary come back if and only if no value holds a comma (the DB2 walk does not trim). */
  lemma SplitIff(parts: seq<string>)
    requires parts != []
    ensures Split(Joined(parts)) == parts <==> forall p :: p in parts ==> ',' !in p
  {
    SplitCounts(Joined(parts));
    JoinedCommas(parts);
    NoCommasIn(parts);
    if forall p :: p in parts ==> ',' !in p { SplitJoined(parts); }
  }

  /** Where the parts are also trimmed, they come back if and only if, besides, no value begins or ends with space. */
  lemma BoundaryIff(parts: seq<string>)
    requires parts != []
    ensures Trimmed(Split(Joined(parts))) == parts <==> forall p :: p in parts ==> ',' !in p && Trim(p) == p
  {
    hide Split, Joined, Trim, Trimmed;
    SplitCounts(Joined(parts));
    JoinedCommas(parts);
    NoCommasIn(parts);
    TrimmedIff(parts);
    assert |Trimmed(Split(Joined(parts)))| == |Split(Joined(parts))| by { TrimmedLength(Split(Joined(parts))); }
    if forall p :: p in parts ==> ',' !in p { SplitJoined(parts); }
  }

  lemma TrimmedLength(parts: seq<string>)
    ensures |Trimmed(parts)| == |parts|
  {
  }

  lemma TrimmedIff(parts: seq<string>)
    ensures Trimmed(parts) == parts <==> forall p :: p in parts ==> Trim(p) == p
  {
    hide Trim;
    if Trimmed(parts) == parts {
      forall p | p in parts ensures Trim(p) == p {
        var i :| 0 <= i < |parts| && parts[i] == p;
        assert Trimmed(parts)[i] == Trim(parts[i]);
      }
    }
    if forall p :: p in parts ==> Trim(p) == p {
      forall i | 0 <= i < |parts| ensures Trimmed(parts)[i] == parts[i] { assert parts[i] in parts; }
    }
  }

  /** A value with a comma shifts the columns of its boundary. */
  lemma CommaExample()
    ensures Split(Joined(["a,b", "c"])) == ["a", "b", "c"]
  {
    assert ["a,b", "c"][..1] == ["a,b"];
    assert Joined(["a,b", "c"]) == "a,b,c";
    SplitJoined(["a", "b", "c"]);
    assert ["a", "b", "c"][..2] == ["a", "b"] && ["a", "b"][..1] == ["a"];
    assert Joined(["a", "b", "c"]) == "a,b,c";
  }
}
