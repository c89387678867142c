/** Key-expression matching: `MatchesSelector` of pkg/zenohutil/client.go against the recursive meaning
  of wildcards (`*` is one chunk, `**` is any number of chunks). */
module Selector {
  import opened Text

  type Chunks = seq<string>

  // ---------------------------------------------------------------- the source's loop

  /** The result of the loop and the two tests behind it, from chunk lists that remain. */
  predicate Loop(sel: Chunks, key: Chunks) {
    if sel == [] || key == [] then
      (sel == [] && key == []) || sel == ["**"]
    else if sel[0] == "**" then true
    else (sel[0] == "*" || sel[0] == key[0]) && Loop(sel[1..], key[1..])
  }

  method MatchesSelector(selector: string, key: string) returns (matches: bool)
    ensures matches == (selector == "**" || selector == key || Loop(Split(selector, '/'), Split(key, '/')))
    ensures matches == Loop(Split(selector, '/'), Split(key, '/'))
  {
    if selector == "**" || selector == key {
      ShortcutsAgree(selector, key);
      return true;
    }
    var selParts := Split(selector, '/');
    var keyParts := Split(key, '/');
    var sIdx, kIdx := 0, 0;
    while sIdx < |selParts| && kIdx < |keyParts|
      invariant 0 <= sIdx <= |selParts| && 0 <= kIdx <= |keyParts|
      invariant Loop(selParts, keyParts) == Loop(selParts[sIdx..], keyParts[kIdx..])
    {
      if selParts[sIdx] == "**" {
        return true;
      }
      if selParts[sIdx] == "*" || selParts[sIdx] == keyParts[kIdx] {
        assert selParts[sIdx..][1..] == selParts[sIdx + 1..];
        assert keyParts[kIdx..][1..] == keyParts[kIdx + 1..];
        sIdx := sIdx + 1;
        kIdx := kIdx + 1;
        continue;
      }
      return false;
    }
    if sIdx == |selParts| && kIdx == |keyParts| {
      return true;
    }
    if sIdx == |selParts| - 1 && selParts[sIdx] == "**" {
      assert selParts[sIdx..] == ["**"];
      return true;
    }
    return false;
  }

  lemma {:induction false} LoopReflexive(key: Chunks)
    ensures Loop(key, key)
  {
    if key != [] {
      LoopReflexive(key[1..]);
    }
  }

  /** The early tests for `**` and for equality never change the loop's answer. */
  lemma ShortcutsAgree(selector: string, key: string)
    requires selector == "**" || selector == key
    ensures Loop(Split(selector, '/'), Split(key, '/'))
  {
    if selector == key {
      LoopReflexive(Split(key, '/'));
    } else {
      assert '/' !in selector;
      SplitOfFree(selector, '/');
    }
  }

  // ---------------------------------------------------------------- the meaning

  /** `*` matches any one chunk, `**` any number of chunks, anything else itself. */
  predicate Means(sel: Chunks, key: Chunks)
    decreases |sel| + |key|
  {
    if sel == [] then key == []
    else if sel[0] == "**" then Means(sel[1..], key) || (key != [] && Means(sel, key[1..]))
    else key != [] && (sel[0] == "*" || sel[0] == key[0]) && Means(sel[1..], key[1..])
  }

  function Stars(sel: Chunks): nat {
    if sel == [] then 0 else (if sel[0] == "**" then 0 else 1) + Stars(sel[1..])
  }

  predicate Wild(chunk: string) {
    chunk == "*" || chunk == "**"
  }

  predicate AllWild(sel: Chunks) {
    forall i :: 0 <= i < |sel| ==> Wild(sel[i])
  }

  /** What follows the first `**`, which the loop never looks at. */
  function AfterDouble(sel: Chunks): Chunks
    requires "**" in sel
  {
    if sel[0] == "**" then sel[1..] else AfterDouble(sel[1..])
  }

  /** What may follow the first `**` without the loop noticing: nothing, or exactly one `*` among
      further `**`. */
  predicate Overlookable(rest: Chunks) {
    rest == [] || (AllWild(rest) && Stars(rest) == 1)
  }

  /** The selectors on which the loop gives the meaning for every key. */
  predicate Faithful(sel: Chunks) {
    || "**" !in sel
    || Overlookable(AfterDouble(sel))
    || (sel[0] == "**" && AllWild(sel) && Stars(sel) == 0)
  }

  // ---------------------------------------------------------------- laws

  /** A row of wildcards bounds the number of chunks and nothing else. */
  lemma {:induction false} MeaningOfWildcards(sel: Chunks, key: Chunks)
    requires AllWild(sel)
    ensures Means(sel, key) <==> Stars(sel) <= |key| && ("**" !in sel ==> Stars(sel) == |key|)
    decreases |sel| + |key|
  {
    if sel != [] {
      assert Wild(sel[0]);
      assert AllWild(sel[1..]) by {
        forall i | 0 <= i < |sel[1..]|
          ensures Wild(sel[1..][i])
        {
          assert sel[1..][i] == sel[i + 1];
        }
      }
      assert "**" in sel <==> sel[0] == "**" || "**" in sel[1..];
      if sel[0] == "**" {
        MeaningOfWildcards(sel[1..], key);
        if key != [] {
          MeaningOfWildcards(sel, key[1..]);
        }
      } else if key != [] {
        MeaningOfWildcards(sel[1..], key[1..]);
      }
    }
  }

  /** A literal chunk of the selector occurs in every key it matches. */
  lemma {:induction false} LiteralOccurs(sel: Chunks, key: Chunks, c: string)
    requires Means(sel, key) && c in sel && !Wild(c)
    ensures c in key
    decreases |sel| + |key|
  {
    if sel[0] == "**" {
      assert c in sel[1..];
      if Means(sel[1..], key) {
        LiteralOccurs(sel[1..], key, c);
      } else {
        LiteralOccurs(sel, key[1..], c);
      }
    } else if sel[0] != c {
      assert c in sel[1..];
      LiteralOccurs(sel[1..], key[1..], c);
    }
  }

  /** From the first `**` on, the loop accepts every nonempty key, and the empty one only when
      nothing follows. */
  lemma DoubleAgrees(sel: Chunks, key: Chunks)
    requires sel != [] && sel[0] == "**"
    requires Overlookable(sel[1..]) || (key != [] && AllWild(sel) && Stars(sel) == 0)
    ensures Loop(sel, key) == Means(sel, key)
  {
    assert Stars(sel) == Stars(sel[1..]);
    if Overlookable(sel[1..]) {
      forall i | 0 <= i < |sel|
        ensures Wild(sel[i])
      {
        assert i > 0 ==> sel[i] == sel[1..][i - 1];
      }
    }
    assert sel == ["**"] <==> sel[1..] == [];
    MeaningOfWildcards(sel, key);
    if key == [] && sel != ["**"] {
      assert Stars(sel) == 1;
    }
  }

  lemma {:induction false} LoopAgrees(sel: Chunks, key: Chunks)
    requires "**" in sel ==> Overlookable(AfterDouble(sel))
    ensures Loop(sel, key) == Means(sel, key)
  {
    if sel == [] {
    } else if sel[0] == "**" {
      DoubleAgrees(sel, key);
    } else if key != [] {
      assert "**" in sel <==> "**" in sel[1..];
      LoopAgrees(sel[1..], key[1..]);
    }
  }

  lemma FaithfulAgrees(sel: Chunks, key: Chunks)
    requires Faithful(sel) && key != []
    ensures Loop(sel, key) == Means(sel, key)
  {
    if "**" !in sel || Overlookable(AfterDouble(sel)) {
      LoopAgrees(sel, key);
    } else {
      DoubleAgrees(sel, key);
    }
  }

  /** A chunk longer than all the selector's, hence none of them. */
  function Fresh(sel: Chunks): (c: string)
    ensures c !in sel && '/' !in c && forall i :: 0 <= i < |sel| ==> |sel[i]| < |c|
  {
    if sel == [] then "x"
    else
      var c := Fresh(sel[1..]);
      var d := if |c| > |sel[0]| then c else seq(|sel[0]| + 1, _ => 'x');
      assert forall i :: 0 < i < |sel| ==> sel[i] == sel[1..][i - 1];
      d
  }

  lemma DoubleDisagrees(sel: Chunks) returns (key: Chunks)
    requires sel != [] && sel[0] == "**" && !Overlookable(sel[1..])
    ensures AllFree(key, '/')
    ensures key == [] ==> AllWild(sel) && Stars(sel) == 0
    ensures Loop(sel, key) != Means(sel, key)
  {
    var rest := sel[1..];
    assert Stars(sel) == Stars(rest);
    if AllWild(rest) {
      forall i | 0 <= i < |sel|
        ensures Wild(sel[i])
      {
        assert i > 0 ==> sel[i] == rest[i - 1];
      }
      key := if Stars(rest) == 0 then [] else ["x"];
      MeaningOfWildcards(sel, key);
    } else {
      var i :| 0 <= i < |rest| && !Wild(rest[i]);
      assert rest[i] in sel && rest[i] != Fresh(sel);
      key := [Fresh(sel)];
      if Means(sel, key) {
        LiteralOccurs(sel, key, rest[i]);
      }
    }
  }

  lemma {:induction false} LoopDisagrees(sel: Chunks) returns (key: Chunks)
    requires "**" in sel && !Overlookable(AfterDouble(sel)) && AllFree(sel, '/')
    ensures AllFree(key, '/')
    ensures key == [] ==> sel[0] == "**" && AllWild(sel) && Stars(sel) == 0
    ensures Loop(sel, key) != Means(sel, key)
  {
    if sel[0] == "**" {
      key := DoubleDisagrees(sel);
    } else {
      assert "**" in sel[1..];
      var rest := LoopDisagrees(sel[1..]);
      key := [if sel[0] == "*" then "x" else sel[0]] + rest;
      assert key[1..] == rest;
    }
  }

  lemma UnfaithfulDisagrees(sel: Chunks) returns (key: Chunks)
    requires !Faithful(sel) && AllFree(sel, '/')
    ensures key != [] && AllFree(key, '/')
    ensures Loop(sel, key) != Means(sel, key)
  {
    key := LoopDisagrees(sel);
  }

  ghost predicate AgreesOnEveryKey(selector: string) {
    forall key: string :: Loop(Split(selector, '/'), Split(key, '/')) == Means(Split(selector, '/'), Split(key, '/'))
  }

  /** `MatchesSelector` gives the meaning on every key exactly for the faithful selectors; whether a
      selector is one can be read off its chunks. */
  lemma MatchingIsTheMeaningExactly(selector: string)
    ensures AgreesOnEveryKey(selector) <==> Faithful(Split(selector, '/'))
  {
    var sel := Split(selector, '/');
    SplitIsFree(selector, '/');
    if Faithful(sel) {
      forall key: string
        ensures Loop(sel, Split(key, '/')) == Means(sel, Split(key, '/'))
      {
        FaithfulAgrees(sel, Split(key, '/'));
      }
    } else {
      var key := UnfaithfulDisagrees(sel);
      SplitJoinExactly(key, '/');
      assert Split(Join(key, '/'), '/') == key;
    }
  }

  /** Something but only further `**` follows the first `**`. */
  predicate Collapses(sel: Chunks) {
    "**" in sel && AfterDouble(sel) != [] && AllWild(AfterDouble(sel)) && Stars(AfterDouble(sel)) == 0
  }

  lemma {:induction false} LoopAcceptsTheMeaning(sel: Chunks, key: Chunks)
    requires !Collapses(sel) && Means(sel, key)
    ensures Loop(sel, key)
  {
    if sel != [] && sel[0] != "**" {
      assert "**" in sel <==> "**" in sel[1..];
      LoopAcceptsTheMeaning(sel[1..], key[1..]);
    } else if sel != [] && key == [] {
      OnlyDoublesMeanNothing(sel[1..]);
      assert sel == ["**"] <==> sel[1..] == [];
    }
  }

  lemma {:induction false} OnlyDoublesMeanNothing(sel: Chunks)
    ensures Means(sel, []) <==> AllWild(sel) && Stars(sel) == 0
  {
    if sel != [] {
      OnlyDoublesMeanNothing(sel[1..]);
      if AllWild(sel[1..]) && sel[0] == "**" {
        forall i | 0 <= i < |sel|
          ensures Wild(sel[i])
        {
          assert i > 0 ==> sel[i] == sel[1..][i - 1];
        }
      } else if AllWild(sel) {
        forall i | 0 <= i < |sel[1..]|
          ensures Wild(sel[1..][i])
        {
          assert sel[1..][i] == sel[i + 1];
        }
      }
    }
  }

  lemma {:induction false} CollapsingRejects(sel: Chunks) returns (key: Chunks)
    requires Collapses(sel) && AllFree(sel, '/')
    ensures AllFree(key, '/') && (sel[0] != "**" ==> key != [])
    ensures Means(sel, key) && !Loop(sel, key)
  {
    if sel[0] == "**" {
      key := [];
      OnlyDoublesMeanNothing(sel[1..]);
    } else {
      assert "**" in sel[1..];
      var rest := CollapsingRejects(sel[1..]);
      key := [if sel[0] == "*" then "x" else sel[0]] + rest;
      assert key[1..] == rest;
    }
  }

  ghost predicate RejectsNoMeantKey(selector: string) {
    forall key: string :: Means(Split(selector, '/'), Split(key, '/')) ==> Loop(Split(selector, '/'), Split(key, '/'))
  }

  /** `MatchesSelector` rejects a key it should match exactly when the selector starts with another
      chunk than `**` and has nothing but further `**` behind its first one. */
  lemma MatchesAreCompleteExactly(selector: string)
    ensures RejectsNoMeantKey(selector) <==>
      var sel := Split(selector, '/');
      sel[0] == "**" || !Collapses(sel)
  {
    var sel := Split(selector, '/');
    SplitIsFree(selector, '/');
    if sel[0] == "**" {
    } else if Collapses(sel) {
      var key := CollapsingRejects(sel);
      SplitJoinExactly(key, '/');
      assert Split(Join(key, '/'), '/') == key;
    } else {
      forall key: string | Means(sel, Split(key, '/'))
        ensures Loop(sel, Split(key, '/'))
      {
        LoopAcceptsTheMeaning(sel, Split(key, '/'));
      }
    }
  }
}
