/** Records keyed by name, merged entry by entry and updated one entry at a time. */
module RecordMerge {
  import opened Wrappers

  function Get<V>(m: map<string, V>, n: string): Option<V> {
    if n in m then Some(m[n]) else None
  }

  // An entry update; None is a thrown error.
  function StepMap<V>(m: map<string, V>, n: string, step: Option<V> -> Option<V>): Option<map<string, V>> {
    var v := step(Get(m, n));
    if v.None? then None else Some(m[n := v.value])
  }

  ghost predicate Clash<V>(e: map<string, V>, g: map<string, V>, join: (Option<V>, V) -> Option<V>) {
    exists n :: n in g && join(Get(e, n), g[n]).None?
  }

  // Every entry of g joined into e; None when one of them cannot be.
  ghost function MergeMaps<V>(e: map<string, V>, g: map<string, V>, join: (Option<V>, V) -> Option<V>)
    : Option<map<string, V>>
  {
    if Clash(e, g, join) then None
    else Some(map n | n in e.Keys + g.Keys :: if n in g then join(Get(e, n), g[n]).value else e[n])
  }

  // The entries of g whose names are not left have been joined into e.
  ghost predicate Merged<V>(e: map<string, V>, g: map<string, V>, join: (Option<V>, V) -> Option<V>,
                            out: map<string, V>, left: set<string>) {
    && left <= g.Keys
    && (forall n :: n in g && n !in left ==> join(Get(e, n), g[n]).Some?)
    && out.Keys == e.Keys + (g.Keys - left)
    && (forall n :: n in out ==> out[n] == if n in g && n !in left then join(Get(e, n), g[n]).value else e[n])
  }

  lemma {:induction false} NextEntry<V>(e: map<string, V>, g: map<string, V>, join: (Option<V>, V) -> Option<V>,
                     out: map<string, V>, left: set<string>, n: string)
    requires Merged(e, g, join, out, left) && n in left
    ensures Get(out, n) == Get(e, n)
    ensures join(Get(e, n), g[n]).None? ==> MergeMaps(e, g, join) == None
    ensures join(Get(e, n), g[n]).Some? ==>
              Merged(e, g, join, out[n := join(Get(e, n), g[n]).value], left - {n})
  {
    if join(Get(e, n), g[n]).None? {
      assert Clash(e, g, join);
    }
  }

  lemma {:induction false} AllEntries<V>(e: map<string, V>, g: map<string, V>, join: (Option<V>, V) -> Option<V>,
      out: map<string, V>)
    requires Merged(e, g, join, out, {})
    ensures MergeMaps(e, g, join) == Some(out)
  {
    assert !Clash(e, g, join);
    assert MergeMaps(e, g, join).value == out;
  }

  // Updating an entry before or after the merge comes to the same, when it does for that entry.
  ghost predicate EntryCommutes<V>(e: Option<V>, g: Option<V>, join: (Option<V>, V) -> Option<V>,
      step: Option<V> -> Option<V>) {
    var stepped := step(g);
    (if stepped.None? then None else join(e, stepped.value))
    == if g.None? then step(e)
       else var merged := join(e, g.value);
            if merged.None? then None else step(merged)
  }

  lemma {:induction false} UpdatedClash<V>(e: map<string, V>, g: map<string, V>, join: (Option<V>, V) -> Option<V>,
      n: string, v: V)
    requires n in g ==> (join(Get(e, n), g[n]).None? <==> join(Get(e, n), v).None?)
    requires n !in g ==> join(Get(e, n), v).Some?
    ensures Clash(e, g[n := v], join) <==> Clash(e, g, join)
  {
    var g' := g[n := v];
    if Clash(e, g, join) {
      var k :| k in g && join(Get(e, k), g[k]).None?;
      assert k in g' && join(Get(e, k), g'[k]).None?;
    }
    if Clash(e, g', join) {
      var k :| k in g' && join(Get(e, k), g'[k]).None?;
      assert k in g && join(Get(e, k), g[k]).None?;
    }
  }

  lemma {:induction false} MergeUpdated<V>(e: map<string, V>, g: map<string, V>, join: (Option<V>, V) -> Option<V>,
      n: string, v: V)
    requires !Clash(e, g, join) && join(Get(e, n), v).Some?
    ensures !Clash(e, g[n := v], join)
    ensures MergeMaps(e, g[n := v], join).value == MergeMaps(e, g, join).value[n := join(Get(e, n), v).value]
  {
    if n in g {
      assert join(Get(e, n), g[n]).Some?;
    }
    UpdatedClash(e, g, join, n, v);
  }

  lemma {:induction false} ClashElsewhere<V>(e: map<string, V>, g: map<string, V>,
      join: (Option<V>, V) -> Option<V>, n: string, v: V)
    requires Clash(e, g, join) && (n in g ==> join(Get(e, n), g[n]).Some?)
    ensures Clash(e, g[n := v], join)
  {
    var k :| k in g && join(Get(e, k), g[k]).None?;
    assert k in g[n := v] && join(Get(e, k), g[n := v][k]).None?;
  }

  lemma {:induction false} MapsCommute<V>(e: map<string, V>, g: map<string, V>, join: (Option<V>, V) -> Option<V>,
      n: string, step: Option<V> -> Option<V>)
    requires EntryCommutes(Get(e, n), Get(g, n), join, step)
    ensures var stepped, merged := StepMap(g, n, step), MergeMaps(e, g, join);
            (if stepped.None? then None else MergeMaps(e, stepped.value, join))
            == if merged.None? then None else StepMap(merged.value, n, step)
  {
    var stepped, merged := step(Get(g, n)), MergeMaps(e, g, join);
    if stepped.Some? {
      var v := stepped.value;
      if merged.Some? {
        assert Get(merged.value, n) == if n in g then join(Get(e, n), g[n]) else Get(e, n) by {
          if n in g {
            assert join(Get(e, n), g[n]).Some?;
          }
        }
        if join(Get(e, n), v).Some? {
          MergeUpdated(e, g, join, n, v);
        } else {
          assert n in g[n := v] && join(Get(e, n), g[n := v][n]).None?;
        }
      } else if n in g && join(Get(e, n), g[n]).None? {
        assert n in g[n := v] && join(Get(e, n), g[n := v][n]).None?;
      } else {
        ClashElsewhere(e, g, join, n, v);
      }
    } else if merged.Some? && n in g {
      assert join(Get(e, n), g[n]).Some?;
    }
  }
}
