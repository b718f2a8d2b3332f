/** What a merge means: for readers of keys, line by line, and when it is repeated or values are rewritten. */
module DotenvMerge {
  import opened Options
  import opened Dotenv

  /** The value of the last line of a key. */
  function LastValue(ls: seq<Line>, key: string): (v: Option<string>)
    ensures v.Some? <==> HasKey(ls, key)
    ensures v.Some? ==> exists i :: 0 <= i < |ls| && Defines(ls[i], key) && ls[i].rawValue == v.value
                                    && forall j :: i < j < |ls| ==> !Defines(ls[j], key)
  {
    if ls == [] then None
    else
      var n := |ls| - 1;
      if Defines(ls[n], key) then Some(ls[n].rawValue)
      else
        assert forall i :: 0 <= i < n ==> ls[..n][i] == ls[i];
        LastValue(ls[..n], key)
  }

  // ----- The base part -----

  /** A line of the base after the merge: the first line of a key takes the last value the overlay gives it. */
  function BaseLine(base: seq<Line>, overlay: seq<Line>, i: nat): Line
    requires i < |base|
  {
    var l := base[i];
    if l.KeyValue? && FirstOf(base, l.key) == i && LastValue(overlay, l.key).Some?
    then l.(rawValue := LastValue(overlay, l.key).value) else l
  }

  lemma {:induction false} OverriddenExactly(base: seq<Line>, overlay: seq<Line>)
    ensures |Overridden(base, overlay)| == |base|
    ensures forall i :: 0 <= i < |base| ==> Overridden(base, overlay)[i] == BaseLine(base, overlay, i)
  {
    OverriddenLine(base, overlay);
    if overlay != [] {
      var n := |overlay| - 1;
      OverriddenExactly(base, overlay[..n]);
      OverriddenLine(base, overlay[..n]);
      hide HasKey, FirstOf;
    }
  }

  /** A blank line goes between, unless the base is empty or ends with one. */
  lemma SeparatorExactly(base: seq<Line>, overlay: seq<Line>)
    ensures Separator(Overridden(base, overlay)) == if base == [] || base[|base| - 1].Blank? then [] else [Blank]
  {
    OverriddenExactly(base, overlay);
    hide Overridden, FirstOf, LastValue;
  }

  /** The merged file starts with the base, line for line, and continues with what was appended. */
  lemma MergeShape(base: seq<Line>, overlay: seq<Line>)
    ensures var m := Merge(base, overlay);
            && |base| <= |m|
            && (forall i :: 0 <= i < |base| ==> m[i] == BaseLine(base, overlay, i))
            && m[|base|..] == if NewKeys(base, overlay) == [] then []
                              else (if base == [] || base[|base| - 1].Blank? then [] else [Blank])
                                   + Appended(NewKeys(base, overlay), overlay).0
  {
    OverriddenExactly(base, overlay);
    SeparatorExactly(base, overlay);
    var ls, keys := Overridden(base, overlay), NewKeys(base, overlay);
    var tail := if keys == [] then [] else Separator(ls) + Appended(keys, overlay).0;
    hide BaseLine, Separator, Overridden, NewKeys, Appended;
    assert Merge(base, overlay) == ls + tail;
    assert (ls + tail)[|base|..] == tail;
  }

  // ----- The appended part -----

  predicate NewKeyLine(keys: seq<string>, l: Line) {
    l.KeyValue? && l.key in keys
  }

  /** Line `i` is copied: it defines a new key, or is one of the comments directly above such a line. */
  predicate KeptAt(keys: seq<string>, overlay: seq<Line>, i: nat)
    requires i < |overlay|
  {
    exists j :: i <= j < |overlay| && NewKeyLine(keys, overlay[j]) && CommentsIn(overlay, i, j)
  }

  predicate CommentsIn(ls: seq<Line>, i: nat, j: nat)
    requires i <= j <= |ls|
  {
    forall k :: i <= k < j ==> ls[k].Comment?
  }

  /** The copied lines among the first `n`, in order. */
  function KeptUpTo(keys: seq<string>, overlay: seq<Line>, n: nat): seq<Line>
    requires n <= |overlay|
  {
    if n == 0 then []
    else KeptUpTo(keys, overlay, n - 1) + if KeptAt(keys, overlay, n - 1) then [overlay[n - 1]] else []
  }

  lemma {:induction false} RunOfKept(keys: seq<string>, overlay: seq<Line>, a: nat, b: nat, kept: bool)
    requires a <= b <= |overlay|
    requires forall i :: a <= i < b ==> KeptAt(keys, overlay, i) == kept
    ensures KeptUpTo(keys, overlay, b) == KeptUpTo(keys, overlay, a) + if kept then overlay[a..b] else []
  {
    if a < b {
      RunOfKept(keys, overlay, a, b - 1, kept);
      assert KeptAt(keys, overlay, b - 1) == kept;
      hide KeptAt;
      var front := KeptUpTo(keys, overlay, a);
      if kept {
        assert overlay[a..b] == overlay[a..b - 1] + [overlay[b - 1]];
        assert front + overlay[a..b - 1] + [overlay[b - 1]] == front + overlay[a..b];
      }
    }
  }

  /** After `n` lines the comments held back are the run of comments just read, and everything copied before it is out. */
  predicate SecondPassAt(keys: seq<string>, overlay: seq<Line>, n: nat, out: seq<Line>, pending: seq<Line>)
    requires n <= |overlay|
  {
    && |pending| <= n && pending == overlay[n - |pending|..n]
    && CommentsIn(overlay, n - |pending|, n)
    && out == KeptUpTo(keys, overlay, n - |pending|)
  }

  lemma {:induction false} AppendedUpTo(keys: seq<string>, overlay: seq<Line>, n: nat)
    requires n <= |overlay|
    ensures SecondPassAt(keys, overlay, n, Appended(keys, overlay[..n]).0, Appended(keys, overlay[..n]).1)
  {
    if n > 0 {
      AppendedUpTo(keys, overlay, n - 1);
      SecondPassStep(keys, overlay, n - 1);
      hide *;
      var (out, pending) := Appended(keys, overlay[..n - 1]);
      SecondPassKeeps(keys, overlay, n - 1, out, pending);
    }
  }

  lemma SecondPassKeeps(keys: seq<string>, overlay: seq<Line>, n: nat, out: seq<Line>, pending: seq<Line>)
    requires n < |overlay| && SecondPassAt(keys, overlay, n, out, pending)
    ensures var l := overlay[n];
            var after := if l.Comment? then (out, pending + [l])
                         else if l.KeyValue? && l.key in keys then (out + pending + [l], [])
                         else (out, []);
            SecondPassAt(keys, overlay, n + 1, after.0, after.1)
  {
    hide SecondPassAt;
    if NewKeyLine(keys, overlay[n]) {
      KeyLineFlushes(keys, overlay, n, out, pending);
    } else if overlay[n].Comment? {
      CommentWaits(keys, overlay, n, out, pending);
    } else {
      OtherLineDrops(keys, overlay, n, out, pending);
    }
  }

  lemma KeyLineFlushes(keys: seq<string>, overlay: seq<Line>, n: nat, out: seq<Line>, pending: seq<Line>)
    requires n < |overlay| && SecondPassAt(keys, overlay, n, out, pending) && NewKeyLine(keys, overlay[n])
    ensures SecondPassAt(keys, overlay, n + 1, out + pending + [overlay[n]], [])
  {
    var a := n - |pending|;
    KeptThrough(keys, overlay, a, n);
    hide KeptUpTo, KeptAt, NewKeyLine, CommentsIn;
    assert overlay[a..n + 1] == pending + [overlay[n]];
    assert out + pending + [overlay[n]] == out + (pending + [overlay[n]]);
    FlushedAt(keys, overlay, n + 1);
  }

  lemma KeptThrough(keys: seq<string>, overlay: seq<Line>, a: nat, n: nat)
    requires a <= n < |overlay| && CommentsIn(overlay, a, n) && NewKeyLine(keys, overlay[n])
    ensures KeptUpTo(keys, overlay, n + 1) == KeptUpTo(keys, overlay, a) + overlay[a..n + 1]
  {
    forall i | a <= i < n + 1 ensures KeptAt(keys, overlay, i) {
      assert CommentsIn(overlay, i, n);
    }
    hide KeptUpTo, KeptAt, NewKeyLine;
    RunOfKept(keys, overlay, a, n + 1, true);
  }

  lemma FlushedAt(keys: seq<string>, overlay: seq<Line>, n: nat)
    requires n <= |overlay|
    ensures SecondPassAt(keys, overlay, n, KeptUpTo(keys, overlay, n), [])
  {
    hide KeptUpTo;
  }

  lemma CommentWaits(keys: seq<string>, overlay: seq<Line>, n: nat, out: seq<Line>, pending: seq<Line>)
    requires n < |overlay| && SecondPassAt(keys, overlay, n, out, pending) && overlay[n].Comment?
    ensures SecondPassAt(keys, overlay, n + 1, out, pending + [overlay[n]])
  {
    hide KeptUpTo, KeptAt;
  }

  lemma OtherLineDrops(keys: seq<string>, overlay: seq<Line>, n: nat, out: seq<Line>, pending: seq<Line>)
    requires n < |overlay| && SecondPassAt(keys, overlay, n, out, pending)
    requires !overlay[n].Comment? && !NewKeyLine(keys, overlay[n])
    ensures SecondPassAt(keys, overlay, n + 1, out, [])
  {
    var a := n - |pending|;
    forall i | a <= i < n + 1 ensures !KeptAt(keys, overlay, i) {
      assert CommentsIn(overlay, i, n);
      RunEndsUnkept(keys, overlay, i, n);
    }
    RunOfKept(keys, overlay, a, n + 1, false);
    hide KeptUpTo, KeptAt;
  }

  /** Comments that run into a line which is neither a comment nor a new key are not copied. */
  lemma RunEndsUnkept(keys: seq<string>, overlay: seq<Line>, i: nat, n: nat)
    requires i <= n <= |overlay| && CommentsIn(overlay, i, n)
    requires n < |overlay| ==> !overlay[n].Comment? && !NewKeyLine(keys, overlay[n])
    requires i < |overlay|
    ensures !KeptAt(keys, overlay, i)
  {
    forall j | i <= j < |overlay| && NewKeyLine(keys, overlay[j]) ensures !CommentsIn(overlay, i, j) {
      assert j > n;
    }
  }

  /** The second pass copies exactly the lines that define a new key and the comments directly above them. */
  lemma AppendedExactly(keys: seq<string>, overlay: seq<Line>)
    ensures Appended(keys, overlay).0 == KeptUpTo(keys, overlay, |overlay|)
  {
    var n := |overlay|;
    assert overlay[..n] == overlay;
    AppendedUpTo(keys, overlay, n);
    var a := n - |Appended(keys, overlay).1|;
    forall i | a <= i < n ensures !KeptAt(keys, overlay, i) {
      RunEndsUnkept(keys, overlay, i, n);
    }
    RunOfKept(keys, overlay, a, n, false);
  }

  // ----- What a key reads as -----

  lemma {:induction false} NewKeysExactly(base: seq<Line>, overlay: seq<Line>)
    ensures forall key :: key in NewKeys(base, overlay) <==> HasKey(overlay, key) && !HasKey(base, key)
  {
    if overlay != [] {
      var n := |overlay| - 1;
      NewKeysExactly(base, overlay[..n]);
      assert forall key :: HasKey(overlay, key) <==> HasKey(overlay[..n], key) || Defines(overlay[n], key) by {
        assert overlay == overlay[..n] + [overlay[n]];
        forall key { HasKeyConcat(overlay[..n], [overlay[n]], key); }
      }
    }
  }

  lemma HasKeyConcat(a: seq<Line>, b: seq<Line>, key: string)
    ensures HasKey(a + b, key) <==> HasKey(a, key) || HasKey(b, key)
  {
    assert forall i :: 0 <= i < |b| ==> Defines((a + b)[|a| + i], key) == Defines(b[i], key);
    assert forall i :: 0 <= i < |a| ==> Defines((a + b)[i], key) == Defines(a[i], key);
  }

  lemma {:induction false} GetConcat(a: seq<Line>, b: seq<Line>, key: string)
    ensures Get(a + b, key) == if HasKey(a, key) then Get(a, key) else Get(b, key)
  {
    if a == [] {
      assert a + b == b;
    } else {
      GetConcat(a[1..], b, key);
      assert (a + b)[1..] == a[1..] + b;
    }
  }

  lemma OneLine(l: Line, key: string)
    ensures HasKey([l], key) <==> l.KeyValue? && l.key == key
    ensures Get([l], key) == if l.KeyValue? && l.key == key then Some(l.rawValue) else None
  {
    assert Defines([l][0], key) <==> l.KeyValue? && l.key == key;
  }

  lemma {:induction false} GetAppended(keys: seq<string>, overlay: seq<Line>, key: string)
    ensures Get(Appended(keys, overlay).0, key) == if key in keys then Get(overlay, key) else None
    ensures !HasKey(Appended(keys, overlay).1, key)
  {
    if overlay != [] {
      var n := |overlay| - 1;
      var l := overlay[n];
      GetAppended(keys, overlay[..n], key);
      var (out, pending) := Appended(keys, overlay[..n]);
      assert overlay == overlay[..n] + [l];
      GetConcat(overlay[..n], [l], key);
      GetConcat(out, pending + [l], key);
      GetConcat(pending, [l], key);
      assert out + pending + [l] == out + (pending + [l]);
      HasKeyConcat(pending, [l], key);
      OneLine(l, key);
      hide Get, HasKey, Defines;
    }
  }

  lemma GetOverridden(base: seq<Line>, overlay: seq<Line>, key: string)
    ensures Get(Overridden(base, overlay), key) ==
            if HasKey(base, key) && HasKey(overlay, key) then LastValue(overlay, key) else Get(base, key)
  {
    OverriddenLine(base, overlay);
    OverriddenExactly(base, overlay);
    var n := FirstOf(base, key);
    assert FirstOf(Overridden(base, overlay), key) == n;
    assert n < |base| ==> Overridden(base, overlay)[n] == BaseLine(base, overlay, n) && FirstOf(base, base[n].key) == n;
    hide FirstOf, HasKey, Get;
  }

  /** After a merge a key of the base reads as its last overlay value, any other key as its first. */
  lemma MergeReads(base: seq<Line>, overlay: seq<Line>, key: string)
    ensures Get(Merge(base, overlay), key) ==
            if !HasKey(overlay, key) then Get(base, key)
            else if HasKey(base, key) then LastValue(overlay, key)
            else Get(overlay, key)
  {
    var ls, keys := Overridden(base, overlay), NewKeys(base, overlay);
    GetOverridden(base, overlay, key);
    NewKeysExactly(base, overlay);
    var sep, tail := Separator(ls), Appended(keys, overlay).0;
    GetAppended(keys, overlay, key);
    GetConcat(ls + sep, tail, key);
    GetConcat(ls, sep, key);
    HasKeyConcat(ls, sep, key);
    hide Overridden, NewKeys, Appended;
  }

  /** Overwriting a key gives its first line the value, or appends a plain line for it; it reads as the value, all others as before. */
  lemma SetExactly(ls: seq<Line>, key: string, value: string, other: string)
    ensures HasKey(ls, key) ==>
              exists n :: 0 <= n < |ls| && Defines(ls[n], key) && (forall i :: 0 <= i < n ==> !Defines(ls[i], key))
                          && SetLines(ls, key, value) == ls[n := KeyValue(key, value, ls[n].exportPrefix)]
    ensures !HasKey(ls, key) ==> SetLines(ls, key, value) == ls + [KeyValue(key, value, false)]
    ensures Get(SetLines(ls, key, value), other) == if other == key then Some(value) else Get(ls, other)
  {
    var n := FirstOf(ls, key);
    if n < |ls| {
      GetReplaced(ls, n, KeyValue(key, value, ls[n].exportPrefix), other);
    } else {
      GetConcat(ls, [KeyValue(key, value, false)], other);
      OneLine(KeyValue(key, value, false), other);
    }
    hide Get;
  }

  lemma {:induction false} GetReplaced(ls: seq<Line>, n: nat, l: Line, other: string)
    requires n < |ls| && ls[n].KeyValue? && l.KeyValue? && l.key == ls[n].key
    requires forall i :: 0 <= i < n ==> !Defines(ls[i], l.key)
    ensures Get(ls[n := l], other) == if other == l.key then Some(l.rawValue) else Get(ls, other)
  {
    if n > 0 {
      GetReplaced(ls[1..], n - 1, l, other);
      assert ls[n := l][1..] == ls[1..][n - 1 := l];
      assert !Defines(ls[0], l.key);
    } else {
      assert ls[0 := l][1..] == ls[1..];
    }
  }

  // ----- Repeating a merge -----

  /** A key the overlay brings in reads the same whether its first or its last line counts. */
  ghost predicate SameFirstAndLast(base: seq<Line>, overlay: seq<Line>) {
    forall key :: HasKey(overlay, key) && !HasKey(base, key) ==> Get(overlay, key) == LastValue(overlay, key)
  }

  ghost predicate UpToDate(ls: seq<Line>, overlay: seq<Line>) {
    forall key :: HasKey(ls, key) && HasKey(overlay, key) ==> Get(ls, key) == LastValue(overlay, key)
  }

  /** Overwriting changes nothing exactly when every key of the file already reads as its last overlay value. */
  lemma OverriddenIdle(ls: seq<Line>, overlay: seq<Line>)
    ensures Overridden(ls, overlay) == ls <==> UpToDate(ls, overlay)
  {
    if Overridden(ls, overlay) == ls {
      forall key | HasKey(ls, key) && HasKey(overlay, key) ensures Get(ls, key) == LastValue(overlay, key) {
        GetOverridden(ls, overlay, key);
      }
    }
    if UpToDate(ls, overlay) {
      OverriddenExactly(ls, overlay);
      forall i | 0 <= i < |ls| ensures BaseLine(ls, overlay, i) == ls[i] {
        hide HasKey, FirstOf, LastValue;
      }
    }
  }

  /** Merging the same overlay again changes nothing exactly when no key it brought in has two values. */
  lemma MergeTwiceExactly(base: seq<Line>, overlay: seq<Line>)
    ensures var m := Merge(base, overlay);
            Merge(m, overlay) == m <==> SameFirstAndLast(base, overlay)
  {
    var m := Merge(base, overlay);
    forall key ensures HasKey(m, key) <==> HasKey(base, key) || HasKey(overlay, key)
      ensures Get(m, key) == if !HasKey(overlay, key) then Get(base, key)
                             else if HasKey(base, key) then LastValue(overlay, key) else Get(overlay, key)
    {
      MergeReads(base, overlay, key);
    }
    NewKeysExactly(m, overlay);
    assert |NewKeys(m, overlay)| > 0 ==> NewKeys(m, overlay)[0] in NewKeys(m, overlay);
    OverriddenIdle(m, overlay);
    hide Merge, Overridden, HasKey, Get;
  }

  predicate DistinctKeys(ls: seq<Line>) {
    forall i, j :: 0 <= i < j < |ls| && ls[i].KeyValue? && ls[j].KeyValue? ==> ls[i].key != ls[j].key
  }

  /** Merging an overlay with distinct keys twice equals merging it once. */
  lemma MergeTwice(base: seq<Line>, overlay: seq<Line>)
    requires DistinctKeys(overlay)
    ensures Merge(Merge(base, overlay), overlay) == Merge(base, overlay)
  {
    forall key | HasKey(overlay, key) ensures Get(overlay, key) == LastValue(overlay, key) {
      var n := FirstOf(overlay, key);
      var i :| 0 <= i < |overlay| && Defines(overlay[i], key) && overlay[i].rawValue == LastValue(overlay, key).value;
      assert i == n;
    }
    MergeTwiceExactly(base, overlay);
  }

  /** An overlay that gives a new key two values: reading it depends on how often it was merged. */
  lemma MergeTwiceDiffers(key: string, first: string, last: string)
    requires first != last
    ensures var overlay := [KeyValue(key, first, false), KeyValue(key, last, false)];
            Merge(Merge([], overlay), overlay) != Merge([], overlay)
  {
    var overlay := [KeyValue(key, first, false), KeyValue(key, last, false)];
    assert Defines(overlay[0], key) && Defines(overlay[1], key);
    assert Get(overlay, key) == Some(first) && LastValue(overlay, key) == Some(last);
    assert !HasKey([], key) && HasKey(overlay, key);
    MergeTwiceExactly([], overlay);
  }

  // ----- Rewriting values -----

  /** Only values are rewritten, each line by itself. */
  lemma MapExactly(ls: seq<Line>, f: string -> string, i: nat)
    requires i < |ls|
    ensures |MapValues(ls, f)| == |ls|
    ensures ls[i].KeyValue? ==> MapValues(ls, f)[i] == KeyValue(ls[i].key, f(ls[i].rawValue), ls[i].exportPrefix)
    ensures !ls[i].KeyValue? ==> MapValues(ls, f)[i] == ls[i]
  {
  }

  lemma MapKeepsKeys(ls: seq<Line>, f: string -> string, key: string)
    ensures HasKey(MapValues(ls, f), key) == HasKey(ls, key)
    ensures FirstOf(MapValues(ls, f), key) == FirstOf(ls, key)
  {
    assert forall i :: 0 <= i < |ls| ==> Defines(MapValues(ls, f)[i], key) == Defines(ls[i], key);
  }

  lemma MapConcat(a: seq<Line>, b: seq<Line>, f: string -> string)
    ensures MapValues(a + b, f) == MapValues(a, f) + MapValues(b, f)
  {
  }

  lemma MapSet(ls: seq<Line>, f: string -> string, key: string, value: string)
    ensures SetLines(MapValues(ls, f), key, f(value)) == MapValues(SetLines(ls, key, value), f)
  {
    MapKeepsKeys(ls, f, key);
  }

  lemma {:induction false} MapOverridden(base: seq<Line>, overlay: seq<Line>, f: string -> string)
    ensures Overridden(MapValues(base, f), MapValues(overlay, f)) == MapValues(Overridden(base, overlay), f)
  {
    if overlay != [] {
      var n, l := |overlay| - 1, overlay[|overlay| - 1];
      MapOverridden(base, overlay[..n], f);
      assert MapValues(overlay, f)[..n] == MapValues(overlay[..n], f);
      if l.KeyValue? {
        MapKeepsKeys(Overridden(base, overlay[..n]), f, l.key);
        MapSet(Overridden(base, overlay[..n]), f, l.key, l.rawValue);
      }
      hide SetLines, HasKey;
    }
  }

  lemma {:induction false} MapNewKeys(base: seq<Line>, overlay: seq<Line>, f: string -> string)
    ensures NewKeys(MapValues(base, f), MapValues(overlay, f)) == NewKeys(base, overlay)
  {
    if overlay != [] {
      var n, l := |overlay| - 1, overlay[|overlay| - 1];
      MapNewKeys(base, overlay[..n], f);
      assert MapValues(overlay, f)[..n] == MapValues(overlay[..n], f);
      if l.KeyValue? {
        MapKeepsKeys(base, f, l.key);
      }
      hide HasKey;
    }
  }

  lemma {:induction false} MapAppended(keys: seq<string>, overlay: seq<Line>, f: string -> string)
    ensures var (out, pending) := Appended(keys, overlay);
            Appended(keys, MapValues(overlay, f)) == (MapValues(out, f), MapValues(pending, f))
  {
    if overlay != [] {
      var n := |overlay| - 1;
      MapAppended(keys, overlay[..n], f);
      assert MapValues(overlay, f)[..n] == MapValues(overlay[..n], f);
      var (out, pending) := Appended(keys, overlay[..n]);
      MapConcat(out + pending, [overlay[n]], f);
      MapConcat(out, pending, f);
      MapConcat(pending, [overlay[n]], f);
      assert MapValues([overlay[n]], f) == [MapValues(overlay, f)[n]];
    }
  }

  /** Rewriting all values before a merge or after it gives the same file, line for line. */
  lemma MergeCommutesWithMap(base: seq<Line>, overlay: seq<Line>, f: string -> string)
    ensures Merge(MapValues(base, f), MapValues(overlay, f)) == MapValues(Merge(base, overlay), f)
  {
    var ls, keys := Overridden(base, overlay), NewKeys(base, overlay);
    MapOverridden(base, overlay, f);
    MapNewKeys(base, overlay, f);
    MapAppended(keys, overlay, f);
    MapConcat(ls, Separator(ls), f);
    MapConcat(ls + Separator(ls), Appended(keys, overlay).0, f);
    assert Separator(MapValues(ls, f)) == MapValues(Separator(ls), f) == Separator(ls);
    hide Overridden, NewKeys, Appended, Separator;
  }
}
