/**
  Assigning a sequence of (key, value) entries into a dictionary one after the other,
  as `d[key] = value` in a loop or a dict comprehension does: a later entry with the
  same key overwrites an earlier one.
 */
module Dicts {

  /** The dictionary `m` after assigning every entry of `es`, first to last. */
  function AssignAll<V>(m: map<string, V>, es: seq<(string, V)>): map<string, V>
    decreases |es|
  {
    if es == [] then m
    else AssignAll(m, es[..|es| - 1])[es[|es| - 1].0 := es[|es| - 1].1]
  }

  /** The keys of the entries, as a set. */
  function KeysOf<V>(es: seq<(string, V)>): set<string> {
    set i | 0 <= i < |es| :: es[i].0
  }

  /** Assigning one more entry is one more dictionary update. */
  lemma AssignAllSnoc<V>(m: map<string, V>, es: seq<(string, V)>, e: (string, V))
    ensures AssignAll(m, es + [e]) == AssignAll(m, es)[e.0 := e.1]
  {
    assert (es + [e])[..|es|] == es;
  }

  /** Assigning two runs of entries is assigning their concatenation. */
  lemma {:induction false} AssignAllAppend<V>(m: map<string, V>, a: seq<(string, V)>, b: seq<(string, V)>)
    ensures AssignAll(m, a + b) == AssignAll(AssignAll(m, a), b)
    decreases |b|
  {
    if b == [] {
      assert a + b == a;
    } else {
      var b' := b[..|b| - 1];
      assert a + b == (a + b') + [b[|b| - 1]];
      AssignAllSnoc(m, a + b', b[|b| - 1]);
      AssignAllAppend(m, a, b');
    }
  }

  /** The keys after assignment are the old keys plus the keys of the entries. */
  lemma {:induction false} AssignAllKeys<V>(m: map<string, V>, es: seq<(string, V)>)
    ensures AssignAll(m, es).Keys == m.Keys + KeysOf(es)
    decreases |es|
  {
    if es != [] {
      var init := es[..|es| - 1];
      AssignAllKeys(m, init);
      assert es == init + [es[|es| - 1]];
      assert KeysOf(es) == KeysOf(init) + {es[|es| - 1].0};
    }
  }

  /** The last entry with a given key decides that key's value. */
  lemma {:induction false} AssignAllLastWins<V>(m: map<string, V>, es: seq<(string, V)>, j: nat)
    requires j < |es|
    requires forall i :: j < i < |es| ==> es[i].0 != es[j].0
    ensures es[j].0 in AssignAll(m, es) && AssignAll(m, es)[es[j].0] == es[j].1
    decreases |es|
  {
    if j < |es| - 1 {
      AssignAllLastWins(m, es[..|es| - 1], j);
    }
  }

  /** A key no entry mentions keeps whatever `m` held for it. */
  lemma {:induction false} AssignAllUntouched<V>(m: map<string, V>, es: seq<(string, V)>, k: string)
    requires forall i :: 0 <= i < |es| ==> es[i].0 != k
    ensures k in AssignAll(m, es) <==> k in m
    ensures k in m ==> AssignAll(m, es)[k] == m[k]
    decreases |es|
  {
    if es != [] {
      AssignAllUntouched(m, es[..|es| - 1], k);
    }
  }
}
