/**
  A model of the C# `switch` statement as the formatters use it: a list of
  switch sections, each a group of case labels sharing one body, followed by a
  `default` body. The first section whose labels contain the scrutinee is taken;
  when no label matches, the default is taken.
 */
module CaseSwitch {

  /** One switch section: `case l1: case l2: ... body`. */
  datatype Section<V, R> = Section(labels: seq<V>, body: R)

  /** True iff `v` is a label of no section at all. */
  predicate Unlabelled<V(==), R>(sections: seq<Section<V, R>>, v: V) {
    forall i :: 0 <= i < |sections| ==> v !in sections[i].labels
  }

  /** True iff section `i` is the first one whose labels contain `v`. */
  predicate FirstMatch<V(==), R>(sections: seq<Section<V, R>>, i: int, v: V) {
    && 0 <= i < |sections|
    && v in sections[i].labels
    && forall j :: 0 <= j < i ==> v !in sections[j].labels
  }

  /** C# forbids a case label to appear twice in one switch. */
  predicate DistinctLabels<V(==), R>(sections: seq<Section<V, R>>) {
    forall i, j, v :: 0 <= i < j < |sections| && v in sections[i].labels ==> v !in sections[j].labels
  }

  /** Executes a switch: the body of the first section labelled `v`, else `default`. */
  function Switch<V(==), R>(sections: seq<Section<V, R>>, v: V, default: R): (r: R)
    ensures Unlabelled(sections, v) ==> r == default
    ensures forall i :: FirstMatch(sections, i, v) ==> r == sections[i].body
    decreases |sections|
  {
    if |sections| == 0 then default
    else if v in sections[0].labels then sections[0].body
    else
      var rest := Switch(sections[1..], v, default);
      assert forall i :: 1 <= i < |sections| ==> sections[i] == sections[1..][i - 1];
      rest
  }

  /** Every value either selects exactly one first section or falls to the default. */
  lemma {:induction false} SwitchTotal<V, R>(sections: seq<Section<V, R>>, v: V)
    ensures Unlabelled(sections, v) || exists i :: FirstMatch(sections, i, v)
    ensures !(Unlabelled(sections, v) && exists i :: FirstMatch(sections, i, v))
    ensures forall i, k :: FirstMatch(sections, i, v) && FirstMatch(sections, k, v) ==> i == k
    decreases |sections|
  {
    if |sections| == 0 {
    } else if v in sections[0].labels {
      assert FirstMatch(sections, 0, v);
    } else {
      SwitchTotal(sections[1..], v);
      assert forall i :: 1 <= i < |sections| ==> sections[i] == sections[1..][i - 1];
      if !Unlabelled(sections, v) {
        var k :| 0 <= k < |sections| && v in sections[k].labels;
        assert !Unlabelled(sections[1..], v) by {
          assert v in sections[1..][k - 1].labels;
        }
        var i :| FirstMatch(sections[1..], i, v);
        assert FirstMatch(sections, i + 1, v);
      }
    }
  }

  /**
    With distinct labels (which the C# compiler enforces) the order of the
    sections does not matter: a value labelled by section `i` selects section
    `i`'s body, whatever precedes it.
   */
  lemma SwitchDistinctSelects<V, R>(sections: seq<Section<V, R>>, i: nat, v: V, default: R)
    requires DistinctLabels(sections)
    requires i < |sections| && v in sections[i].labels
    ensures Switch(sections, v, default) == sections[i].body
  {
  }
}
