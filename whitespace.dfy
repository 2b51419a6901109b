/** Go's `strings.Fields` and `strings.Join`, over text seen as a sequence of
    runes, and the collapse `strings.Join(strings.Fields(text), " ")` that the
    payments extractor applies to the cell it picks. */
module Whitespace {

  /** Go's `unicode.IsSpace`: within Latin-1 a fixed switch over '\t', '\n',
      '\v', '\f', '\r', ' ', U+0085 (NEL) and U+00A0 (NBSP); above Latin-1
      the White_Space runes U+1680, U+2000 to U+200A, U+2028, U+2029, U+202F,
      U+205F and U+3000. */
  predicate IsSpace(c: char)
  {
    || c == '\t' || c == '\n' || c == '\U{000B}' || c == '\U{000C}' || c == '\r' || c == ' '
    || c == '\U{0085}' || c == '\U{00A0}'
    || c == '\U{1680}'
    || ('\U{2000}' <= c <= '\U{200A}')
    || c == '\U{2028}' || c == '\U{2029}' || c == '\U{202F}' || c == '\U{205F}' || c == '\U{3000}'
  }

  predicate NoSpace(s: string)
  {
    forall i :: 0 <= i < |s| ==> !IsSpace(s[i])
  }

  predicate AllSpace(s: string)
  {
    forall i :: 0 <= i < |s| ==> IsSpace(s[i])
  }

  /** A field as `strings.Fields` returns it: a non-empty run of non-space runes. */
  predicate IsField(w: string)
  {
    w != [] && NoSpace(w)
  }

  predicate AllFields(parts: seq<string>)
  {
    forall i :: 0 <= i < |parts| ==> IsField(parts[i])
  }

  /** The length of the longest prefix of `s` without white space. */
  function WordLength(s: string): (n: nat)
    ensures n <= |s|
    ensures NoSpace(s[..n])
    ensures n < |s| ==> IsSpace(s[n])
  {
    if s == [] || IsSpace(s[0]) then 0 else 1 + WordLength(s[1..])
  }

  /** `strings.Fields`: the maximal runs of non-space runes of `s`, in order. */
  function Fields(s: string): (fs: seq<string>)
    ensures AllFields(fs)
    decreases |s|
  {
    if s == [] then []
    else if IsSpace(s[0]) then Fields(s[1..])
    else
      var n := WordLength(s);
      [s[..n]] + Fields(s[n..])
  }

  /** `strings.Join`: the parts with `sep` between each neighbouring pair. */
  function Join(parts: seq<string>, sep: string): string
  {
    if parts == [] then []
    else if |parts| == 1 then parts[0]
    else parts[0] + sep + Join(parts[1..], sep)
  }

  /** `strings.Join(strings.Fields(s), " ")`. */
  function Collapse(s: string): (r: string)
    ensures IsCollapsed(r)
    ensures Fields(r) == Fields(s)
  {
    var fs := Fields(s);
    JoinIsCollapsed(fs);
    FieldsOfJoin(fs);
    Join(fs, " ")
  }

  /** `s` with every white-space rune deleted. */
  function RemoveSpaces(s: string): string
  {
    if s == [] then []
    else (if IsSpace(s[0]) then [] else [s[0]]) + RemoveSpaces(s[1..])
  }

  function Concat(parts: seq<string>): string
  {
    if parts == [] then [] else parts[0] + Concat(parts[1..])
  }

  /** The shape of a collapsed string: trimmed at both ends, its only white
      space is ' ', and no two white-space runes are adjacent. */
  predicate IsCollapsed(s: string)
  {
    && (s != [] ==> !IsSpace(s[0]) && !IsSpace(s[|s| - 1]))
    && (forall i :: 0 <= i < |s| && IsSpace(s[i]) ==> s[i] == ' ')
    && (forall i :: 0 <= i < |s| - 1 && IsSpace(s[i]) ==> !IsSpace(s[i + 1]))
  }

  // ---------------------------------------------------------------------
  // Deleting white space

  lemma {:induction false} RemoveSpacesAppend(a: string, b: string)
    ensures RemoveSpaces(a + b) == RemoveSpaces(a) + RemoveSpaces(b)
  {
    if a == [] {
      assert a + b == b;
    } else {
      assert (a + b)[1..] == a[1..] + b;
      RemoveSpacesAppend(a[1..], b);
    }
  }

  lemma {:induction false} RemoveSpacesOfNoSpace(w: string)
    requires NoSpace(w)
    ensures RemoveSpaces(w) == w
  {
    if w != [] {
      RemoveSpacesOfNoSpace(w[1..]);
    }
  }

  /** Deleting white space leaves nothing exactly when there was nothing else. */
  lemma {:induction false} RemoveSpacesEmptyIff(s: string)
    ensures RemoveSpaces(s) == [] <==> AllSpace(s)
  {
    if s != [] {
      RemoveSpacesEmptyIff(s[1..]);
      if AllSpace(s) {
        assert AllSpace(s[1..]) by {
          forall i | 0 <= i < |s[1..]| ensures IsSpace(s[1..][i]) { assert s[1..][i] == s[i + 1]; }
        }
      } else if IsSpace(s[0]) {
        assert !AllSpace(s[1..]) by {
          var j :| 0 <= j < |s| && !IsSpace(s[j]);
          assert s[1..][j - 1] == s[j];
        }
      }
    }
  }

  // ---------------------------------------------------------------------
  // Fields

  lemma {:induction false} WordLengthIs(s: string, k: nat)
    requires k <= |s| && NoSpace(s[..k]) && (k < |s| ==> IsSpace(s[k]))
    ensures WordLength(s) == k
  {
  }

  /** The fields, put end to end, are the input with its white space deleted. */
  lemma {:induction false} FieldsContent(s: string)
    ensures Concat(Fields(s)) == RemoveSpaces(s)
    decreases |s|
  {
    if s == [] {
    } else if IsSpace(s[0]) {
      FieldsContent(s[1..]);
    } else {
      var n := WordLength(s);
      var fs := Fields(s);
      assert fs == [s[..n]] + Fields(s[n..]);
      assert fs[1..] == Fields(s[n..]);
      FieldsContent(s[n..]);
      RemoveSpacesOfNoSpace(s[..n]);
      RemoveSpacesAppend(s[..n], s[n..]);
      assert s[..n] + s[n..] == s;
    }
  }

  /** There are no fields exactly when the input is all white space. */
  lemma FieldsEmptyIff(s: string)
    ensures Fields(s) == [] <==> AllSpace(s)
  {
    FieldsContent(s);
    RemoveSpacesEmptyIff(s);
    if Fields(s) != [] {
      assert Fields(s)[0] != [];
      assert Concat(Fields(s)) == Fields(s)[0] + Concat(Fields(s)[1..]);
    }
  }

  /** A single field is its own only field. */
  lemma FieldsOfField(w: string)
    requires IsField(w)
    ensures Fields(w) == [w]
  {
    assert w[..|w|] == w;
    WordLengthIs(w, |w|);
    assert w[|w|..] == [];
  }

  /** A leading white-space rune does not change the fields. */
  lemma FieldsSkipSpace(c: char, t: string)
    requires IsSpace(c)
    ensures Fields([c] + t) == Fields(t)
  {
    assert ([c] + t)[1..] == t;
  }

  /** A field followed by a white-space rune becomes the first field. */
  lemma FieldsOfFieldThenSpace(w: string, c: char, t: string)
    requires IsField(w) && IsSpace(c)
    ensures Fields(w + [c] + t) == [w] + Fields(t)
  {
    var s := w + [c] + t;
    assert s[..|w|] == w;
    WordLengthIs(s, |w|);
    assert s[|w|..] == [c] + t;
    FieldsSkipSpace(c, t);
  }

  // ---------------------------------------------------------------------
  // Join

  /** Joining fields with ' ' deletes to the fields put end to end. */
  lemma {:induction false} JoinContent(parts: seq<string>)
    requires AllFields(parts)
    ensures RemoveSpaces(Join(parts, " ")) == Concat(parts)
  {
    if |parts| == 1 {
      RemoveSpacesOfNoSpace(parts[0]);
      assert parts[1..] == [];
    } else if |parts| > 1 {
      var rest := Join(parts[1..], " ");
      JoinContent(parts[1..]);
      RemoveSpacesOfNoSpace(parts[0]);
      RemoveSpacesAppend(parts[0] + " ", rest);
      RemoveSpacesAppend(parts[0], " ");
      assert RemoveSpaces(" ") == [];
    }
  }

  lemma {:induction false} JoinNotEmpty(parts: seq<string>)
    requires AllFields(parts) && parts != []
    ensures Join(parts, " ") != []
  {
    assert parts[0] != [];
  }

  /** Putting a field and a ' ' in front of a collapsed non-empty string keeps
      it collapsed. */
  lemma CollapsedCons(w: string, t: string)
    requires IsField(w) && IsCollapsed(t) && t != []
    ensures IsCollapsed(w + " " + t)
  {
    var s := w + " " + t;
    forall i | 0 <= i < |s| && IsSpace(s[i]) ensures s[i] == ' ' {
      if i > |w| { assert s[i] == t[i - |w| - 1]; }
    }
    forall i | 0 <= i < |s| - 1 && IsSpace(s[i]) ensures !IsSpace(s[i + 1]) {
      if i == |w| { assert s[i + 1] == t[0]; }
      else if i > |w| { assert s[i] == t[i - |w| - 1] && s[i + 1] == t[i - |w|]; }
    }
    assert s[0] == w[0];
    assert s[|s| - 1] == t[|t| - 1];
  }

  /** Joining fields with ' ' gives a collapsed string. */
  lemma {:induction false} JoinIsCollapsed(parts: seq<string>)
    requires AllFields(parts)
    ensures IsCollapsed(Join(parts, " "))
  {
    if |parts| == 1 {
      assert NoSpace(parts[0]);
    } else if |parts| > 1 {
      JoinIsCollapsed(parts[1..]);
      JoinNotEmpty(parts[1..]);
      CollapsedCons(parts[0], Join(parts[1..], " "));
    }
  }

  /** `strings.Fields` undoes `strings.Join(_, " ")` on fields. */
  lemma {:induction false} FieldsOfJoin(parts: seq<string>)
    requires AllFields(parts)
    ensures Fields(Join(parts, " ")) == parts
  {
    if |parts| == 1 {
      FieldsOfField(parts[0]);
    } else if |parts| > 1 {
      FieldsOfJoin(parts[1..]);
      FieldsOfFieldThenSpace(parts[0], ' ', Join(parts[1..], " "));
      assert [parts[0]] + parts[1..] == parts;
    }
  }

  // ---------------------------------------------------------------------
  // Collapse

  /** Collapsing an already collapsed string changes nothing. */
  lemma CollapseIdempotent(s: string)
    ensures Collapse(Collapse(s)) == Collapse(s)
  {
  }

  /** The collapse is the only string of collapsed shape with the input's
      fields. */
  lemma CollapseUnique(s: string, x: string)
    requires IsCollapsed(x) && Fields(x) == Fields(s)
    ensures x == Collapse(s)
  {
    CollapsedIsFixpoint(x);
  }

  /** Collapsing deletes and inserts only white space: with all white space
      deleted, input and output are the same. */
  lemma CollapsePreservesContent(s: string)
    ensures RemoveSpaces(Collapse(s)) == RemoveSpaces(s)
  {
    JoinContent(Fields(s));
    FieldsContent(s);
  }

  /** The collapse is empty exactly when the input is all white space
      (including the empty input). */
  lemma CollapseEmptyIff(s: string)
    ensures Collapse(s) == [] <==> AllSpace(s)
  {
    FieldsEmptyIff(s);
    if Fields(s) != [] {
      JoinNotEmpty(Fields(s));
    }
  }

  /** A collapsed string is a fixed point of collapsing, so the strings of
      collapsed shape are exactly the results of collapsing. */
  lemma {:induction false} CollapsedIsFixpoint(s: string)
    requires IsCollapsed(s)
    ensures Collapse(s) == s
    decreases |s|
  {
    if s != [] {
      var n := WordLength(s);
      if n == |s| {
        FieldsOfField(s);
      } else {
        assert s[n] == ' ';
        assert n + 1 < |s|;
        var t := s[n + 1..];
        assert IsCollapsed(t) by {
          assert t[|t| - 1] == s[|s| - 1];
          assert t[0] == s[n + 1];
          forall i | 0 <= i < |t| ensures t[i] == s[n + 1 + i] { }
        }
        CollapsedIsFixpoint(t);
        assert s == s[..n] + [s[n]] + t;
        FieldsOfFieldThenSpace(s[..n], s[n], t);
        assert t[0] == s[n + 1];
        assert Fields(t) != [] by { FieldsEmptyIff(t); }
        var fs := [s[..n]] + Fields(t);
        assert fs[1..] == Fields(t);
      }
    }
  }

  /** A run of white space in front does not change the fields. */
  lemma {:induction false} FieldsSkipSpaces(a: string, t: string)
    requires AllSpace(a)
    ensures Fields(a + t) == Fields(t)
  {
    if a == [] {
      assert a + t == t;
    } else {
      assert a + t == [a[0]] + (a[1..] + t);
      assert AllSpace(a[1..]) by {
        forall i | 0 <= i < |a[1..]| ensures IsSpace(a[1..][i]) { assert a[1..][i] == a[i + 1]; }
      }
      FieldsSkipSpace(a[0], a[1..] + t);
      FieldsSkipSpaces(a[1..], t);
    }
  }

  /** A field followed by a non-empty run of white space becomes the first
      field, whatever the length of the run. */
  lemma FieldsOfFieldThenSpaces(w: string, a: string, t: string)
    requires IsField(w) && AllSpace(a) && a != []
    ensures Fields(w + a + t) == [w] + Fields(t)
  {
    assert w + a + t == w + [a[0]] + (a[1..] + t);
    FieldsOfFieldThenSpace(w, a[0], a[1..] + t);
    assert AllSpace(a[1..]) by {
      forall i | 0 <= i < |a[1..]| ensures IsSpace(a[1..][i]) { assert a[1..][i] == a[i + 1]; }
    }
    FieldsSkipSpaces(a[1..], t);
  }

  /** A field followed only by white space is the one field. */
  lemma FieldsOfFieldThenTrail(w: string, d: string)
    requires IsField(w) && AllSpace(d)
    ensures Fields(w + d) == [w]
  {
    if d == [] {
      assert w + d == w;
      FieldsOfField(w);
    } else {
      FieldsOfFieldThenSpaces(w, d, []);
      assert w + d + [] == w + d;
      FieldsEmptyIff([]);
    }
  }

  lemma JoinThree(w1: string, w2: string, w3: string)
    ensures Join([w1, w2, w3], " ") == w1 + " " + w2 + " " + w3
  {
    var fs := [w1, w2, w3];
    assert fs[1..] == [w2, w3] && fs[1..][1..] == [w3];
    assert Join([w3], " ") == w3;
    assert Join([w2, w3], " ") == w2 + " " + w3;
  }

  /** Three fields separated and surrounded by arbitrary runs of white space
      collapse to the three fields with one ' ' between each. */
  lemma CollapseThreeFields(a: string, w1: string, b: string, w2: string, c: string, w3: string, d: string)
    requires IsField(w1) && IsField(w2) && IsField(w3)
    requires AllSpace(a) && AllSpace(b) && AllSpace(c) && AllSpace(d)
    requires b != [] && c != []
    ensures Collapse(a + w1 + b + w2 + c + w3 + d) == w1 + " " + w2 + " " + w3
  {
    var t2 := w3 + d;
    var t1 := w2 + c + t2;
    var t0 := w1 + b + t1;
    var s := a + w1 + b + w2 + c + w3 + d;
    assert s == a + t0;
    var fs := [w1, w2, w3];
    assert Fields(t2) == [w3] by { FieldsOfFieldThenTrail(w3, d); }
    assert Fields(t1) == [w2, w3] by { FieldsOfFieldThenSpaces(w2, c, t2); }
    assert Fields(t0) == fs by { FieldsOfFieldThenSpaces(w1, b, t1); }
    assert Fields(s) == fs by { FieldsSkipSpaces(a, t0); }
    JoinThree(w1, w2, w3);
  }

  /** A cell with leading, trailing and interior runs of spaces, newlines and
      tabs collapses to its three fields joined by single spaces. */
  lemma CollapseExample(cell: string)
    requires cell == "  Филиал\n\tМосква   12.05.2024  "
    ensures Collapse(cell) == "Филиал Москва 12.05.2024"
  {
    ExampleCellPieces(cell);
    ExamplePieces();
    CollapseThreeFields("  ", "Филиал", "\n\t", "Москва", "   ", "12.05.2024", "  ");
    ExampleJoined();
  }

  lemma ExampleCellPieces(cell: string)
    requires cell == "  Филиал\n\tМосква   12.05.2024  "
    ensures cell == "  " + "Филиал" + "\n\t" + "Москва" + "   " + "12.05.2024" + "  "
  {
  }

  lemma ExamplePieces()
    ensures IsField("Филиал") && IsField("Москва") && IsField("12.05.2024")
    ensures AllSpace("  ") && AllSpace("\n\t") && AllSpace("   ")
  {
  }

  lemma ExampleJoined()
    ensures "Филиал" + " " + "Москва" + " " + "12.05.2024" == "Филиал Москва 12.05.2024"
  {
  }
}
