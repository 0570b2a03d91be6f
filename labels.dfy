/** The label handling of `add_labels_to_issue`: parsing a comma-separated
    list of labels to add, and merging it with an issue's current labels into
    `sorted(set(current + new))`. */
module Labels {
  import opened Text

  // ---------------------------------------------------------------------
  // Python's ordering on str
  // ---------------------------------------------------------------------

  /** `a < b` on Python strings: lexicographic by code point, a proper
      prefix coming first. A string is never below itself. */
  predicate Below(a: string, b: string): (r: bool)
    ensures r ==> a != b
  {
    if a == [] then b != []
    else b != [] && (a[0] < b[0] || (a[0] == b[0] && Below(a[1..], b[1..])))
  }

  lemma {:induction false} BelowTransitive(a: string, b: string, c: string)
    requires Below(a, b) && Below(b, c)
    ensures Below(a, c)
  {
    if a != [] && a[0] == b[0] && b[0] == c[0] {
      BelowTransitive(a[1..], b[1..], c[1..]);
    }
  }

  lemma {:induction false} BelowTotal(a: string, b: string)
    requires a != b
    ensures Below(a, b) || Below(b, a)
  {
    if a != [] && b != [] && a[0] == b[0] {
      assert a == [a[0]] + a[1..] && b == [b[0]] + b[1..];
      BelowTotal(a[1..], b[1..]);
    }
  }

  lemma BelowAsymmetric(a: string, b: string)
    requires Below(a, b)
    ensures !Below(b, a)
  {
    if Below(b, a) {
      BelowTransitive(a, b, a);
    }
  }

  // ---------------------------------------------------------------------
  // sorted(set(xs))
  // ---------------------------------------------------------------------

  /** Ascending without repetitions. */
  predicate StrictlySorted(s: seq<string>) {
    forall i, j :: 0 <= i < j < |s| ==> Below(s[i], s[j])
  }

  /** Everything in a strictly sorted list lies above anything below its head. */
  lemma BelowAll(x: string, s: seq<string>)
    requires StrictlySorted(s) && s != [] && Below(x, s[0])
    ensures forall j :: 0 <= j < |s| ==> Below(x, s[j])
  {
    forall j | 0 < j < |s| ensures Below(x, s[j]) {
      BelowTransitive(x, s[0], s[j]);
    }
  }

  /** Adds `x` to a strictly sorted list at its place, unless it is there. */
  function Insert(s: seq<string>, x: string): (r: seq<string>)
    requires StrictlySorted(s)
    ensures StrictlySorted(r)
    ensures forall y :: y in r <==> y in s || y == x
  {
    if s == [] then [x]
    else if x == s[0] then s
    else if Below(x, s[0]) then BelowAll(x, s); [x] + s
    else
      BelowTotal(x, s[0]);
      var tail := Insert(s[1..], x);
      assert forall y :: y in tail ==> Below(s[0], y);
      [s[0]] + tail
  }

  /** `sorted(set(xs))`: the distinct elements of `xs` in ascending order. */
  function SortedSet(xs: seq<string>): (r: seq<string>)
    ensures StrictlySorted(r)
    ensures forall y :: y in r <==> y in xs
  {
    if xs == [] then []
    else
      var init := SortedSet(xs[..|xs| - 1]);
      assert xs == xs[..|xs| - 1] + [xs[|xs| - 1]];
      Insert(init, xs[|xs| - 1])
  }

  /** A strictly sorted list is determined by its elements: so `SortedSet`
      is the only strictly sorted list holding exactly the elements of `xs`. */
  lemma {:induction false} SortedUnique(a: seq<string>, b: seq<string>)
    requires StrictlySorted(a) && StrictlySorted(b)
    requires forall y :: y in a <==> y in b
    ensures a == b
  {
    assert a != [] ==> a[0] in a;
    assert b != [] ==> b[0] in b;
    if a != [] && b != [] {
      if a[0] != b[0] {
        assert b[0] in a && a[0] in b;
        var i :| 0 <= i < |a| && a[i] == b[0];
        var j :| 0 <= j < |b| && b[j] == a[0];
        assert Below(a[0], b[0]);
        assert Below(b[0], a[0]);
        BelowAsymmetric(a[0], b[0]);
        assert false;
      }
      forall y ensures y in a[1..] <==> y in b[1..] {
        HeadNotInTail(a, y);
        HeadNotInTail(b, y);
      }
      SortedUnique(a[1..], b[1..]);
      assert a == [a[0]] + a[1..] && b == [b[0]] + b[1..];
    }
  }

  lemma HeadNotInTail(s: seq<string>, y: string)
    requires StrictlySorted(s) && s != []
    ensures y in s[1..] <==> y in s && y != s[0]
  {
    assert s == [s[0]] + s[1..];
  }

  // ---------------------------------------------------------------------
  // Parsing the labels to add, and merging
  // ---------------------------------------------------------------------

  /** The stripped pieces, in order, leaving out those that strip to nothing:
      at most one label per piece, each non-empty and already stripped. */
  function KeepStripped(pieces: seq<string>): (r: seq<string>)
    ensures |r| <= |pieces|
    ensures forall k :: 0 <= k < |r| ==> r[k] != "" && Strip(r[k]) == r[k]
  {
    if pieces == [] then []
    else
      var t := Strip(pieces[0]);
      var rest := KeepStripped(pieces[1..]);
      if t == "" then rest
      else
        StripIdempotent(pieces[0], Whitespace);
        [t] + rest
  }

  /** The labels to add, parsed from `labels_to_add_csv`: at most one per
      comma-separated piece, none empty, and none holding a comma. */
  function ParseLabels(csv: string): (r: seq<string>)
    ensures |r| <= |Split(csv, ',')|
    ensures forall k :: 0 <= k < |r| ==> r[k] != "" && ',' !in r[k]
  {
    SplitPiecesFree(csv, ',');
    KeepStrippedShape(Split(csv, ','));
    var r := KeepStripped(Split(csv, ','));
    assert forall k :: 0 <= k < |r| ==> r[k] in r;
    r
  }

  /** The parsed labels are exactly the stripped pieces of the list that are
      not empty. */
  lemma {:induction false} KeepStrippedMembers(pieces: seq<string>)
    ensures forall y :: y in KeepStripped(pieces) <==>
              y != "" && exists p :: p in pieces && Strip(p) == y
  {
    if pieces != [] {
      var rest := pieces[1..];
      KeepStrippedMembers(rest);
      assert pieces == [pieces[0]] + rest;
      forall y ensures y in KeepStripped(pieces) <==> y != "" && exists p :: p in pieces && Strip(p) == y {
        if y != "" && Strip(pieces[0]) == y {
          assert pieces[0] in pieces;
        } else if y != "" && (exists p :: p in pieces && Strip(p) == y) {
          var p :| p in pieces && Strip(p) == y;
          assert p in rest;
        }
      }
    }
  }

  /** Every parsed label is non-empty, has no surrounding whitespace and, when
      its pieces are comma-free, no comma. */
  lemma {:induction false} KeepStrippedShape(pieces: seq<string>)
    requires forall k :: 0 <= k < |pieces| ==> ',' !in pieces[k]
    ensures forall y :: y in KeepStripped(pieces) ==>
              y != "" && Strip(y) == y && ',' !in y
  {
    if pieces != [] {
      KeepStrippedShape(pieces[1..]);
      StripIdempotent(pieces[0], Whitespace);
      StripKeepsAbsent(pieces[0], ',');
    }
  }

  /** Stripping adds no character. */
  lemma StripKeepsAbsent(s: string, c: char)
    requires c !in s
    ensures c !in Strip(s)
  {
    StripSlice(s, Whitespace);
    var i, j :| SliceBetween(s, Whitespace, Strip(s), i, j);
    assert forall k :: 0 <= k < j - i ==> s[i..j][k] == s[i + k];
  }

  /** The labels parsed from `csv`: each is a stripped, non-empty piece of it
      between commas, each such piece is one of them, and none holds a comma
      or surrounding whitespace. */
  lemma ParseLabelsSpec(csv: string)
    ensures forall y :: y in ParseLabels(csv) <==>
              y != "" && exists p :: p in Split(csv, ',') && Strip(p) == y
    ensures forall y :: y in ParseLabels(csv) ==> Strip(y) == y && ',' !in y
  {
    assert ParseLabels(csv) == KeepStripped(Split(csv, ','));
    KeepStrippedMembers(Split(csv, ','));
    SplitPiecesFree(csv, ',');
    KeepStrippedShape(Split(csv, ','));
  }

  /** `sorted(set(current + new))`. */
  function MergeLabels(current: seq<string>, added: seq<string>): (r: seq<string>)
    ensures StrictlySorted(r)
    ensures forall y :: y in r <==> y in current || y in added
  {
    SortedSet(current + added)
  }

  /** Adding labels that were just added changes nothing. */
  lemma MergeLabelsIdempotent(current: seq<string>, added: seq<string>)
    ensures MergeLabels(MergeLabels(current, added), added) == MergeLabels(current, added)
  {
    SortedUnique(MergeLabels(MergeLabels(current, added), added), MergeLabels(current, added));
  }

  /** The order in which labels are added does not matter. */
  lemma MergeLabelsOrderFree(current: seq<string>, a: seq<string>, b: seq<string>)
    ensures MergeLabels(MergeLabels(current, a), b) == MergeLabels(MergeLabels(current, b), a)
  {
    SortedUnique(MergeLabels(MergeLabels(current, a), b), MergeLabels(MergeLabels(current, b), a));
  }

  /** The `labels` value written back to the issue: the merged list joined
      by commas. */
  function LabelsValue(current: seq<string>, csv: string): string {
    Join(",", MergeLabels(current, ParseLabels(csv)))
  }

  /** The `labels` value sent back splits again into exactly the merged list
      when that list is non-empty and the current labels hold no comma. */
  lemma MergedLabelsRoundTrip(current: seq<string>, csv: string)
    requires forall y :: y in current ==> ',' !in y
    requires MergeLabels(current, ParseLabels(csv)) != []
    ensures Split(LabelsValue(current, csv), ',') == MergeLabels(current, ParseLabels(csv))
  {
    var merged := MergeLabels(current, ParseLabels(csv));
    ParseLabelsSpec(csv);
    forall k | 0 <= k < |merged| ensures ',' !in merged[k] {
      assert merged[k] in merged;
    }
    SplitJoin(merged, ',');
  }
}
