/**
 * Deduplication of extracted leads (`dedupe_leads`): one pass over the leads
 * with a growing set of seen keys; a lead is dropped, and counted as a hit,
 * when one of its keys was seen before, and kept, adding its keys, otherwise.
 */
module LeadCacheManager {
  import opened Wrappers
  import opened Strings
  import opened Models

  /** `_lead_keys`: the lower-cased email, the phone as given and the lower-cased website, each when present. */
  function LeadKeys(l: LeadCandidate): (ks: seq<string>)
    ensures |ks| <= 3
    ensures forall k :: 0 <= k < |ks| ==> ks[k] != ""
    ensures ks == [] <==> !Filled(l.email) && !Filled(l.phone) && !Filled(l.website)
  {
    (if Filled(l.email) then ["email:" + Lower(l.email.value)] else []) +
    (if Filled(l.phone) then ["phone:" + l.phone.value] else []) +
    (if Filled(l.website) then ["web:" + Lower(l.website.value)] else [])
  }

  /** `any(k in seen for k in keys if k)`. */
  predicate AnySeen(keys: seq<string>, seen: set<string>) {
    exists k :: k in keys && k != "" && k in seen
  }

  /** The non-empty keys of `keys`, as a set. */
  function KeySet(keys: seq<string>): set<string> {
    set k | k in keys && k != ""
  }

  /** The state of the pass: the keys seen, the leads kept and the hits so far. */
  datatype Pass = Pass(seen: set<string>, kept: seq<LeadCandidate>, hits: nat)

  /** `_lead_keys` as a function value; the properties below hold for any key function `key`. */
  function LeadKeysOf(): LeadCandidate -> seq<string> {
    l => LeadKeys(l)
  }

  /** One iteration of the loop of `dedupe_leads`. */
  function Step(key: LeadCandidate -> seq<string>, p: Pass, l: LeadCandidate): Pass {
    var keys := key(l);
    if AnySeen(keys, p.seen) then p.(hits := p.hits + 1) else Pass(p.seen + KeySet(keys), p.kept + [l], p.hits)
  }

  /** The state after the first `n` leads. */
  function Dedupe(key: LeadCandidate -> seq<string>, leads: seq<LeadCandidate>, n: nat): Pass
    requires n <= |leads|
  {
    if n == 0 then Pass({}, [], 0) else Step(key, Dedupe(key, leads, n - 1), leads[n - 1])
  }

  /** Lead `i` is kept: none of its keys was seen before it. */
  predicate KeptAt(key: LeadCandidate -> seq<string>, leads: seq<LeadCandidate>, i: nat)
    requires i < |leads|
  {
    !AnySeen(key(leads[i]), Dedupe(key, leads, i).seen)
  }

  /** The inner loop `for k in keys: if k: seen.add(k)`. */
  method AddKeys(seen: set<string>, keys: seq<string>) returns (r: set<string>)
    ensures r == seen + KeySet(keys)
  {
    r := seen;
    for j := 0 to |keys|
      invariant r == seen + KeySet(keys[..j])
    {
      assert keys[..j + 1] == keys[..j] + [keys[j]];
      if keys[j] != "" {
        r := r + {keys[j]};
      }
    }
    assert keys[..|keys|] == keys;
  }

  /** The body of the loop of `dedupe_leads` for one lead. */
  method Visit(seen: set<string>, kept: seq<LeadCandidate>, hits: nat, l: LeadCandidate)
    returns (seen': set<string>, kept': seq<LeadCandidate>, hits': nat)
    ensures Pass(seen', kept', hits') == Step(LeadKeysOf(), Pass(seen, kept, hits), l)
  {
    var keys := LeadKeys(l);
    assert keys == LeadKeysOf()(l);
    seen', kept', hits' := seen, kept, hits;
    if exists k :: k in keys && k != "" && k in seen {
      hits' := hits + 1;
    } else {
      seen' := AddKeys(seen, keys);
      kept' := kept + [l];
    }
  }

  /** `dedupe_leads`: the kept leads and the statistics `CacheStats(hits, hits, len(kept))`. */
  method DedupeLeads(leads: seq<LeadCandidate>) returns (kept: seq<LeadCandidate>, stats: CacheStats)
    ensures kept == Dedupe(LeadKeysOf(), leads, |leads|).kept
    ensures stats == CacheStats(Dedupe(LeadKeysOf(), leads, |leads|).hits, Dedupe(LeadKeysOf(), leads, |leads|).hits, |kept|)
  {
    var seen: set<string> := {};
    kept := [];
    var hits := 0;
    for i := 0 to |leads|
      invariant Pass(seen, kept, hits) == Dedupe(LeadKeysOf(), leads, i)
    {
      seen, kept, hits := Visit(seen, kept, hits, leads[i]);
    }
    stats := CacheStats(hits, hits, |kept|);
  }

  // ---------------------------------------------------------------------------
  // Properties of the pass, for any key function
  // ---------------------------------------------------------------------------

  /** Every lead is either kept or counted as a hit. */
  lemma {:induction false} DedupeCounts(key: LeadCandidate -> seq<string>, leads: seq<LeadCandidate>, n: nat)
    requires n <= |leads|
    ensures |Dedupe(key, leads, n).kept| + Dedupe(key, leads, n).hits == n
  {
    if n > 0 {
      DedupeCounts(key, leads, n - 1);
    }
  }

  /** The positions of the kept leads among the first `n`. */
  function KeptIndices(key: LeadCandidate -> seq<string>, leads: seq<LeadCandidate>, n: nat): (idx: seq<nat>)
    requires n <= |leads|
    ensures forall a :: 0 <= a < |idx| ==> idx[a] < n
  {
    if n == 0 then [] else KeptIndices(key, leads, n - 1) + (if KeptAt(key, leads, n - 1) then [n - 1] else [])
  }

  /** The kept leads are the input at increasing positions, exactly those where the lead is kept. */
  lemma {:induction false} DedupeSubsequence(key: LeadCandidate -> seq<string>, leads: seq<LeadCandidate>, n: nat)
    requires n <= |leads|
    ensures |KeptIndices(key, leads, n)| == |Dedupe(key, leads, n).kept|
    ensures forall a, b :: 0 <= a < b < |KeptIndices(key, leads, n)| ==> KeptIndices(key, leads, n)[a] < KeptIndices(key, leads, n)[b]
    ensures forall a :: 0 <= a < |KeptIndices(key, leads, n)| ==> Dedupe(key, leads, n).kept[a] == leads[KeptIndices(key, leads, n)[a]]
    ensures forall i :: 0 <= i < n ==> (KeptAt(key, leads, i) <==> i in KeptIndices(key, leads, n))
  {
    if n > 0 {
      DedupeSubsequence(key, leads, n - 1);
      var idx := KeptIndices(key, leads, n);
      var prev := KeptIndices(key, leads, n - 1);
      var kept := Dedupe(key, leads, n).kept;
      var before := Dedupe(key, leads, n - 1).kept;
      if KeptAt(key, leads, n - 1) {
        assert idx == prev + [n - 1];
        assert kept == before + [leads[n - 1]];
        forall a | 0 <= a < |idx|
          ensures kept[a] == leads[idx[a]]
        {
          if a < |prev| {
            assert kept[a] == before[a];
            assert idx[a] == prev[a];
          }
        }
      } else {
        assert idx == prev;
        assert kept == before;
      }
    }
  }

  /** The keys of the leads in `ls`. */
  ghost function KeysOf(key: LeadCandidate -> seq<string>, ls: seq<LeadCandidate>): set<string> {
    set l, k | l in ls && k in key(l) && k != "" :: k
  }

  /** The seen set is exactly the keys of the kept leads: dropped leads add none. */
  lemma {:induction false} SeenIsKeptKeys(key: LeadCandidate -> seq<string>, leads: seq<LeadCandidate>, n: nat)
    requires n <= |leads|
    ensures Dedupe(key, leads, n).seen == KeysOf(key, Dedupe(key, leads, n).kept)
  {
    if n > 0 {
      SeenIsKeptKeys(key, leads, n - 1);
      var p := Dedupe(key, leads, n - 1);
      if !AnySeen(key(leads[n - 1]), p.seen) {
        var l := leads[n - 1];
        assert KeysOf(key, p.kept + [l]) == KeysOf(key, p.kept) + KeySet(key(l)) by {
          forall k | k in KeysOf(key, p.kept + [l])
            ensures k in KeysOf(key, p.kept) + KeySet(key(l))
          {
            var m :| m in p.kept + [l] && k in key(m) && k != "";
            if m != l {
              assert m in p.kept;
            }
          }
        }
      }
    }
  }

  /** Two leads share a non-empty key. */
  predicate SharesKey(key: LeadCandidate -> seq<string>, a: LeadCandidate, b: LeadCandidate) {
    exists k :: k in key(a) && k in key(b) && k != ""
  }

  /** A lead is dropped exactly when it shares a key with a lead kept before it. */
  lemma DroppedIff(key: LeadCandidate -> seq<string>, leads: seq<LeadCandidate>, i: nat)
    requires i < |leads|
    ensures !KeptAt(key, leads, i) <==> exists l :: l in Dedupe(key, leads, i).kept && SharesKey(key, l, leads[i])
  {
    SeenIsKeptKeys(key, leads, i);
    var keys := key(leads[i]);
    var p := Dedupe(key, leads, i);
    if AnySeen(keys, p.seen) {
      var k :| k in keys && k != "" && k in p.seen;
      var l :| l in p.kept && k in key(l);
      assert SharesKey(key, l, leads[i]);
    }
    if exists l :: l in p.kept && SharesKey(key, l, leads[i]) {
      var l :| l in p.kept && SharesKey(key, l, leads[i]);
      var k :| k in key(l) && k in keys && k != "";
      assert k in KeysOf(key, p.kept);
    }
  }

  /** No two leads of `ls` share a key. */
  predicate PairwiseDistinctKeys(key: LeadCandidate -> seq<string>, ls: seq<LeadCandidate>) {
    forall a, b :: 0 <= a < b < |ls| ==> !SharesKey(key, ls[a], ls[b])
  }

  /** No two kept leads share a key. */
  lemma {:induction false} KeptDistinct(key: LeadCandidate -> seq<string>, leads: seq<LeadCandidate>, n: nat)
    requires n <= |leads|
    ensures PairwiseDistinctKeys(key, Dedupe(key, leads, n).kept)
  {
    if n > 0 {
      KeptDistinct(key, leads, n - 1);
      var before := Dedupe(key, leads, n - 1).kept;
      if KeptAt(key, leads, n - 1) {
        DroppedIff(key, leads, n - 1);
        var kept := before + [leads[n - 1]];
        assert Dedupe(key, leads, n).kept == kept;
        forall a, b | 0 <= a < b < |kept|
          ensures !SharesKey(key, kept[a], kept[b])
        {
          if b == |before| {
            assert kept[a] in before;
          } else {
            assert kept[a] == before[a] && kept[b] == before[b];
          }
        }
      }
    }
  }

  /** A list whose leads share no key passes unchanged, with no hits. */
  lemma {:induction false} DistinctKeptWhole(key: LeadCandidate -> seq<string>, ls: seq<LeadCandidate>, n: nat)
    requires n <= |ls| && PairwiseDistinctKeys(key, ls)
    ensures Dedupe(key, ls, n).kept == ls[..n] && Dedupe(key, ls, n).hits == 0
  {
    if n > 0 {
      DistinctKeptWhole(key, ls, n - 1);
      SeenIsKeptKeys(key, ls, n - 1);
      var p := Dedupe(key, ls, n - 1);
      assert ls[..n] == ls[..n - 1] + [ls[n - 1]];
    }
  }

  /** Deduplicating a deduplicated list returns it unchanged with no hits. */
  lemma DedupeIdempotent(key: LeadCandidate -> seq<string>, leads: seq<LeadCandidate>)
    ensures var kept := Dedupe(key, leads, |leads|).kept;
      Dedupe(key, kept, |kept|).kept == kept && Dedupe(key, kept, |kept|).hits == 0
  {
    var kept := Dedupe(key, leads, |leads|).kept;
    KeptDistinct(key, leads, |leads|);
    DistinctKeptWhole(key, kept, |kept|);
    assert kept[..|kept|] == kept;
  }

  // ---------------------------------------------------------------------------
  // Properties of `_lead_keys`
  // ---------------------------------------------------------------------------

  /** A lead with no email, phone or website is always kept. */
  lemma KeylessKept(leads: seq<LeadCandidate>, i: nat)
    requires i < |leads|
    requires !Filled(leads[i].email) && !Filled(leads[i].phone) && !Filled(leads[i].website)
    ensures KeptAt(LeadKeysOf(), leads, i)
  {
    assert LeadKeysOf()(leads[i]) == [];
  }

  /** Two leads whose emails differ only in ASCII case collapse to the first, with one hit. */
  lemma EmailCaseCollapses(a: LeadCandidate, b: LeadCandidate)
    requires Filled(a.email) && Filled(b.email) && Lower(a.email.value) == Lower(b.email.value)
    ensures Dedupe(LeadKeysOf(), [a, b], 2).kept == [a] && Dedupe(LeadKeysOf(), [a, b], 2).hits == 1
  {
    var k := "email:" + Lower(a.email.value);
    assert LeadKeys(a)[0] == k && LeadKeys(b)[0] == k;
    assert k in Dedupe(LeadKeysOf(), [a, b], 1).seen;
  }

  /** Two leads whose websites differ only in ASCII case collapse to the first, with one hit. */
  lemma WebsiteCaseCollapses(a: LeadCandidate, b: LeadCandidate)
    requires Filled(a.website) && Filled(b.website) && Lower(a.website.value) == Lower(b.website.value)
    ensures Dedupe(LeadKeysOf(), [a, b], 2).kept == [a] && Dedupe(LeadKeysOf(), [a, b], 2).hits == 1
  {
    var k := "web:" + Lower(a.website.value);
    assert k == LeadKeys(a)[|LeadKeys(a)| - 1] && k == LeadKeys(b)[|LeadKeys(b)| - 1];
    assert k in Dedupe(LeadKeysOf(), [a, b], 1).seen;
  }

  /** Phones are compared verbatim: two phone-only leads with different phone text are both kept. */
  lemma PhonesVerbatim(a: LeadCandidate, b: LeadCandidate)
    requires !Filled(a.email) && !Filled(a.website) && !Filled(b.email) && !Filled(b.website)
    requires Filled(a.phone) && Filled(b.phone) && a.phone.value != b.phone.value
    ensures Dedupe(LeadKeysOf(), [a, b], 2).kept == [a, b] && Dedupe(LeadKeysOf(), [a, b], 2).hits == 0
  {
    var ka := "phone:" + a.phone.value;
    var kb := "phone:" + b.phone.value;
    assert LeadKeys(a) == [ka] && LeadKeys(b) == [kb];
    assert ka[6..] == a.phone.value && kb[6..] == b.phone.value;
    assert Dedupe(LeadKeysOf(), [a, b], 1).seen == {ka};
  }
}
