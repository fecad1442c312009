/** The zone catalogue of `get_dns_zones`: the zones found under the three
    probe paths whose name is the target domain, each name kept once, in the
    order first seen. */
module Zones {
  import opened Wrappers
  import opened Strings
  import opened Ldap

  /** A zone whose `dc` names the target domain, compared in lower case. */
  predicate Matches(target: string, e: Entry) {
    Lower(e.dc) == Lower(target)
  }

  /** `found_names`: the names of the zones kept so far. */
  function Names(zones: seq<Entry>): set<string> {
    set z | z in zones :: z.dc
  }

  /** The entries of the probes that answered, in probe order; a probe that
      raised contributes nothing. */
  function Probed(replies: seq<Raisable<Found>>): seq<Entry> {
    if replies == [] then []
    else
      var prev := Probed(replies[..|replies| - 1]);
      match replies[|replies| - 1]
      case Threw(_) => prev
      case Returned(f) => prev + f.entries
  }

  /** `found_zones` after the entries `es` have been examined in order. */
  function Catalogue(target: string, es: seq<Entry>): seq<Entry> {
    if es == [] then []
    else
      var prev := Catalogue(target, es[..|es| - 1]);
      var e := es[|es| - 1];
      if Matches(target, e) && e.dc !in Names(prev) then prev + [e] else prev
  }

  /** The entry at `i` is the first in `es` with its name. */
  predicate FirstOfName(es: seq<Entry>, i: int)
    requires 0 <= i < |es|
  {
    forall j :: 0 <= j < i ==> es[j].dc != es[i].dc
  }

  /** A zone is catalogued exactly when it is the first entry of its name and
      that name is the target domain. */
  lemma {:induction false} CatalogueIff(target: string, es: seq<Entry>, z: Entry)
    ensures z in Catalogue(target, es) <==>
      Matches(target, z) && exists i :: 0 <= i < |es| && es[i] == z && FirstOfName(es, i)
  {
    if es != [] {
      var init := es[..|es| - 1];
      var last := |es| - 1;
      var prev := Catalogue(target, init);
      CatalogueIff(target, init, z);
      if z in Catalogue(target, es) {
        if z in prev {
          var i :| 0 <= i < |init| && init[i] == z && FirstOfName(init, i);
          assert es[i] == z && FirstOfName(es, i);
        } else {
          assert z == es[last] && Matches(target, z) && z.dc !in Names(prev);
          forall j | 0 <= j < last ensures es[j].dc != z.dc {
            if es[j].dc == z.dc {
              CatalogueHasName(target, init, j);
            }
          }
          assert FirstOfName(es, last);
        }
      }
      if Matches(target, z) && exists i :: 0 <= i < |es| && es[i] == z && FirstOfName(es, i) {
        var i :| 0 <= i < |es| && es[i] == z && FirstOfName(es, i);
        if i < last {
          assert init[i] == z && FirstOfName(init, i);
        } else {
          forall y | y in prev ensures y.dc != z.dc {
            CatalogueIff(target, init, y);
            var k :| 0 <= k < |init| && init[k] == y && FirstOfName(init, k);
            assert es[k] == y;
          }
          assert z.dc !in Names(prev);
        }
      }
    }
  }

  /** Every name of the target domain among the entries is catalogued. */
  lemma {:induction false} CatalogueHasName(target: string, es: seq<Entry>, i: int)
    requires 0 <= i < |es| && Matches(target, es[i])
    ensures es[i].dc in Names(Catalogue(target, es))
  {
    var init := es[..|es| - 1];
    var prev := Catalogue(target, init);
    if i < |es| - 1 {
      CatalogueHasName(target, init, i);
      assert init[i] == es[i];
    }
    assert forall y :: y in prev ==> y in Catalogue(target, es);
  }

  /** No two zones of `zs` share a name. */
  predicate DistinctNames(zs: seq<Entry>) {
    forall i, j :: 0 <= i < j < |zs| ==> zs[i].dc != zs[j].dc
  }

  /** No two catalogued zones share a name. */
  lemma {:induction false} CatalogueDistinct(target: string, es: seq<Entry>)
    ensures DistinctNames(Catalogue(target, es))
  {
    if es != [] {
      var init := es[..|es| - 1];
      CatalogueDistinct(target, init);
      var prev := Catalogue(target, init);
      var zs := Catalogue(target, es);
      if zs != prev {
        var e := es[|es| - 1];
        assert zs == prev + [e] && e.dc !in Names(prev);
        forall i, j | 0 <= i < j < |zs| ensures zs[i].dc != zs[j].dc {
          if j == |zs| - 1 {
            assert zs[i] == prev[i] && zs[j] == e && prev[i] in prev;
            assert zs[i].dc in Names(prev);
          } else {
            assert zs[i] == prev[i] && zs[j] == prev[j];
          }
        }
      }
    }
  }

  /** Zones found earlier keep their place: the catalogue of a prefix of the
      entries is a prefix of the catalogue of all of them. */
  lemma {:induction false} CataloguePrefix(target: string, es: seq<Entry>, more: seq<Entry>)
    ensures var whole := Catalogue(target, es + more);
      |Catalogue(target, es)| <= |whole| && whole[..|Catalogue(target, es)|] == Catalogue(target, es)
    decreases |more|
  {
    if more == [] {
      assert es + more == es;
    } else {
      var init := more[..|more| - 1];
      CataloguePrefix(target, es, init);
      assert (es + more)[..|es + more| - 1] == es + init;
    }
  }

  /** A probe that raised leaves the catalogue as it was. */
  lemma ThrownProbeIgnored(target: string, replies: seq<Raisable<Found>>, description: string)
    ensures Catalogue(target, Probed(replies + [Threw(description)])) == Catalogue(target, Probed(replies))
  {
    assert (replies + [Threw(description)])[..|replies|] == replies;
  }
}
