/** The subscriber property of a work item (`rtc_cm:subscribers` in the parsed
    RDF body) and the pure rules by which one email's resolved URL is added to
    or removed from it, alone and in batches.

    The parser gives the property one of three shapes: no key at all, a bare
    mapping for exactly one subscriber, or a list of mappings. Each mapping is
    identified by its `@rdf:resource` URL, so the model keeps only the URLs. */
module Subscribers {
  import opened Base

  type Url = string

  /** The namespace `_add_subscriber` declares on `rdf:RDF` when it creates
      the property. */
  const RtcCmNamespace: string := "http://jazz.net/xmlns/prod/jazz/rtc/cm/1.0/"

  /** The property as parsed: absent, a bare mapping, or a list. A list is
      normally two or more long, but nothing stops other lengths, and the
      code's treatment of them is modelled as written. */
  datatype Subs = Absent | One(url: Url) | Many(urls: seq<Url>)

  /** The parts of a parsed subscriber representation the engine touches:
      the subscriber property of `rdf:Description` and the `@xmlns:rtc_cm`
      attribute of `rdf:RDF`. */
  datatype Doc = Doc(subscribers: Subs, rtcCmNs: Option<string>)

  // ---------------------------------------------------------------------------
  // Normaliser: wire shape <-> ordered member list
  // ---------------------------------------------------------------------------

  /** The members of the property, in order. */
  function Members(s: Subs): seq<Url>
  {
    match s
    case Absent => []
    case One(u) => [u]
    case Many(us) => us
  }

  /** The wire convention: a list only for two or more members. */
  predicate WellShaped(s: Subs)
  {
    s.Many? ==> |s.urls| >= 2
  }

  /** The wire shape of a member list. */
  function Denormalize(us: seq<Url>): (s: Subs)
    ensures WellShaped(s)
    ensures Members(s) == us
  {
    if |us| == 0 then Absent else if |us| == 1 then One(us[0]) else Many(us)
  }

  /** A well-shaped property is the wire shape of its own members. */
  lemma NormalizeRoundTrip(s: Subs)
    requires WellShaped(s)
    ensures Denormalize(Members(s)) == s
  {
  }

  predicate NoDup(us: seq<Url>)
  {
    forall i, j :: 0 <= i < j < |us| ==> us[i] != us[j]
  }

  function Elems(us: seq<Url>): set<Url>
  {
    set u | u in us
  }

  // ---------------------------------------------------------------------------
  // One email
  // ---------------------------------------------------------------------------

  /** `_check_exist_subscriber`: the new subscriber is the existing entry. */
  function CheckExist(newUrl: Url, existUrl: Url): bool
  {
    newUrl == existUrl
  }

  /** `_check_missing_subscriber`: the subscriber to delete is not the
      existing entry. */
  function CheckMissing(delUrl: Url, existUrl: Url): bool
  {
    delUrl != existUrl
  }

  /** `_add_subscriber` on the property, once the email has been resolved to
      `url`: the new property and the "already existed" flag. The flag is
      raised exactly for a URL already present, and then nothing changes;
      otherwise the URL is appended after the old members. */
  function Add(s: Subs, url: Url): (r: (Subs, bool))
    ensures r.1 <==> url in Members(s)
    ensures r.1 ==> r.0 == s
    ensures !r.1 ==> Members(r.0) == Members(s) + [url]
    ensures WellShaped(s) ==> WellShaped(r.0)
  {
    match s
    case Absent => (One(url), false)
    case One(u) => if CheckExist(url, u) then (s, true) else (Many([u, url]), false)
    case Many(us) => if url in us then (s, true) else (Many(us + [url]), false)
  }

  /** `_add_subscriber` on the whole representation: as `Add`, and creating
      the property also declares its namespace on `rdf:RDF`; an existing
      declaration is left alone. */
  function AddToDoc(d: Doc, url: Url): (r: (Doc, bool))
    ensures r.1 <==> url in Members(d.subscribers)
    ensures r.1 ==> r.0 == d
    ensures !r.1 ==> Members(r.0.subscribers) == Members(d.subscribers) + [url]
    ensures !r.1 ==> r.0.rtcCmNs == if d.subscribers.Absent? then Some(RtcCmNamespace) else d.rtcCmNs
    ensures WellShaped(d.subscribers) ==> WellShaped(r.0.subscribers)
  {
    var (s, existed) := Add(d.subscribers, url);
    (Doc(s, if d.subscribers.Absent? then Some(RtcCmNamespace) else d.rtcCmNs), existed)
  }

  /** `list.remove(x)`: the list without the first occurrence of `url`, one
      shorter when there is one and unchanged when there is none. */
  function RemoveFirst(us: seq<Url>, url: Url): (r: seq<Url>)
    ensures url !in us ==> r == us
    ensures url in us ==> |r| == |us| - 1
    decreases |us|
  {
    if us == [] then []
    else if us[0] == url then us[1..]
    else
      assert url in us ==> url in us[1..];
      [us[0]] + RemoveFirst(us[1..], url)
  }

  /** `_remove_subscriber` on the property, once the email has been resolved
      to `url`: the new property and the "was missing" flag. The flag is
      raised exactly for a URL not present, and then nothing changes;
      otherwise the members lose the URL's first occurrence, and a list that
      shrinks to one element is replaced by that element. */
  function Remove(s: Subs, url: Url): (r: (Subs, bool))
    ensures r.1 <==> url !in Members(s)
    ensures r.1 ==> r.0 == s
    ensures Members(r.0) == RemoveFirst(Members(s), url)
    ensures WellShaped(s) ==> WellShaped(r.0)
  {
    match s
    case Absent => (Absent, true)
    case One(u) => if CheckMissing(url, u) then (s, true) else (Absent, false)
    case Many(us) =>
      if url !in us then (s, true)
      else
        var rest := RemoveFirst(us, url);
        (if |rest| == 1 then One(rest[0]) else Many(rest), false)
  }

  /** `_remove_subscriber` on the whole representation: as `Remove`, and the
      namespace declaration is never touched. */
  function RemoveFromDoc(d: Doc, url: Url): (r: (Doc, bool))
    ensures r.1 <==> url !in Members(d.subscribers)
    ensures r.1 ==> r.0 == d
    ensures Members(r.0.subscribers) == RemoveFirst(Members(d.subscribers), url)
    ensures r.0.rtcCmNs == d.rtcCmNs
    ensures WellShaped(d.subscribers) ==> WellShaped(r.0.subscribers)
  {
    var (s, missing) := Remove(d.subscribers, url);
    (Doc(s, d.rtcCmNs), missing)
  }

  /** On a well-shaped property, adding a new URL is appending it to the
      members and writing them back in their wire shape: absent becomes a bare
      mapping, a bare mapping a two-element list, a list grows at its end. */
  lemma AddIsAppendDenormalized(s: Subs, url: Url)
    requires WellShaped(s) && url !in Members(s)
    ensures Add(s, url).0 == Denormalize(Members(s) + [url])
  {
  }

  /** Adding keeps a duplicate-free member list duplicate-free and its member
      set becomes the old set plus the URL. */
  lemma AddSetSpec(s: Subs, url: Url)
    requires NoDup(Members(s))
    ensures NoDup(Members(Add(s, url).0))
    ensures Elems(Members(Add(s, url).0)) == Elems(Members(s)) + {url}
  {
    var us := Members(s);
    if url !in us {
      var vs := us + [url];
      assert Members(Add(s, url).0) == vs;
      assert forall i :: 0 <= i < |us| ==> vs[i] == us[i];
      assert Elems(vs) == Elems(us) + {url} by {
        forall u ensures u in vs <==> u in us || u == url {
          if u in vs {
            var k :| 0 <= k < |vs| && vs[k] == u;
          }
        }
      }
    }
  }

  /** Adding the same subscriber twice is adding it once: the second add
      reports "existed" and changes nothing. */
  lemma AddIdempotent(d: Doc, url: Url)
    ensures var d1 := AddToDoc(d, url).0;
      AddToDoc(d1, url) == (d1, true)
  {
    var d1 := AddToDoc(d, url).0;
    assert url in Members(d1.subscribers);
  }

  /** Removing a subscriber just added restores the old member list, and on
      a well-shaped property the old wire shape too. */
  lemma RemoveUndoesAdd(d: Doc, url: Url)
    requires url !in Members(d.subscribers)
    ensures var (d2, missing) := RemoveFromDoc(AddToDoc(d, url).0, url);
      && !missing
      && Members(d2.subscribers) == Members(d.subscribers)
      && (WellShaped(d.subscribers) ==> d2.subscribers == d.subscribers)
  {
    var us := Members(d.subscribers);
    var d1 := AddToDoc(d, url).0;
    assert Members(d1.subscribers) == us + [url];
    RemoveFirstAt(us + [url], url, |us|);
    assert (us + [url])[..|us|] == us;
    assert (us + [url])[|us| + 1..] == [];
    if WellShaped(d.subscribers) {
      RemoveIsDeleteDenormalized(d1.subscribers, url);
      NormalizeRoundTrip(d.subscribers);
    }
  }

  /** `RemoveFirst` deletes exactly the first occurrence and keeps the order
      of the rest. */
  lemma RemoveFirstSpec(us: seq<Url>, url: Url)
    ensures forall i :: 0 <= i < |us| && us[i] == url && url !in us[..i] ==>
      RemoveFirst(us, url) == us[..i] + us[i + 1..]
  {
    forall i | 0 <= i < |us| && us[i] == url && url !in us[..i]
      ensures RemoveFirst(us, url) == us[..i] + us[i + 1..]
    {
      RemoveFirstAt(us, url, i);
    }
  }

  lemma {:induction false} RemoveFirstAt(us: seq<Url>, url: Url, i: nat)
    requires i < |us| && us[i] == url && url !in us[..i]
    ensures RemoveFirst(us, url) == us[..i] + us[i + 1..]
    decreases i
  {
    if i == 0 {
      assert us[..0] + us[1..] == us[1..];
    } else {
      var tail := us[1..];
      assert us[0] == us[..i][0];
      assert tail[i - 1] == url;
      assert tail[..i - 1] == us[1..i];
      assert url !in tail[..i - 1];
      RemoveFirstAt(tail, url, i - 1);
      assert us[..i] == [us[0]] + tail[..i - 1];
      assert us[i + 1..] == tail[i..];
    }
  }

  /** Removing the first occurrence from a duplicate-free list: the result is
      duplicate-free and its set is the old set without the URL. */
  lemma {:induction false} RemoveFirstSet(us: seq<Url>, url: Url)
    requires NoDup(us)
    ensures NoDup(RemoveFirst(us, url))
    ensures Elems(RemoveFirst(us, url)) == Elems(us) - {url}
    decreases |us|
  {
    if us != [] {
      var tail := us[1..];
      assert NoDup(tail) by {
        forall i, j | 0 <= i < j < |tail| ensures tail[i] != tail[j] {
          assert tail[i] == us[i + 1] && tail[j] == us[j + 1];
        }
      }
      assert us[0] !in tail by {
        forall j | 0 <= j < |tail| ensures tail[j] != us[0] {
          assert tail[j] == us[j + 1];
        }
      }
      assert Elems(us) == {us[0]} + Elems(tail) by {
        assert us == [us[0]] + tail;
      }
      if us[0] != url {
        RemoveFirstSet(tail, url);
        var r := RemoveFirst(tail, url);
        var whole := [us[0]] + r;
        assert Elems(whole) == {us[0]} + Elems(r);
        assert us[0] !in r;
        assert NoDup(whole) by {
          forall i, j | 0 <= i < j < |whole| ensures whole[i] != whole[j] {
            assert whole[j] == r[j - 1];
            if i > 0 {
              assert whole[i] == r[i - 1];
            } else {
              assert r[j - 1] in r;
            }
          }
        }
        assert url in us <==> url in tail;
      }
    }
  }

  /** On a well-shaped property, removing is deleting from the members and
      writing them back in their wire shape: a bare mapping disappears, a
      two-element list collapses to the bare survivor, a longer list shrinks. */
  lemma RemoveIsDeleteDenormalized(s: Subs, url: Url)
    requires WellShaped(s)
    ensures Remove(s, url).0 == Denormalize(RemoveFirst(Members(s), url))
  {
    RemoveFirstSpec(Members(s), url);
  }

  /** Removing from a duplicate-free member list leaves it duplicate-free, and
      its member set becomes the old set without the URL. */
  lemma RemoveSetSpec(s: Subs, url: Url)
    requires NoDup(Members(s))
    ensures NoDup(Members(Remove(s, url).0))
    ensures Elems(Members(Remove(s, url).0)) == Elems(Members(s)) - {url}
  {
    RemoveFirstSet(Members(s), url);
  }

  // ---------------------------------------------------------------------------
  // Batches
  // ---------------------------------------------------------------------------

  /** The batch methods' flag accumulator: `acc = acc and flag` over the
      per-email flags, starting from `init`. */
  function Aggregate(init: bool, flags: seq<bool>): (r: bool)
    ensures r ==> init
    decreases |flags|
  {
    if flags == [] then init else Aggregate(init, flags[..|flags| - 1]) && flags[|flags| - 1]
  }

  predicate AllTrue(flags: seq<bool>)
  {
    forall i :: 0 <= i < |flags| ==> flags[i]
  }

  /** Every URL of a batch is a member of `m`. */
  predicate AllIn(urls: seq<Url>, m: seq<Url>)
  {
    forall i :: 0 <= i < |urls| ==> urls[i] in m
  }

  /** No URL of a batch is a member of `m`. */
  predicate NoneIn(urls: seq<Url>, m: seq<Url>)
  {
    forall i :: 0 <= i < |urls| ==> urls[i] !in m
  }

  lemma AllTrueSnoc(flags: seq<bool>, f: bool)
    ensures AllTrue(flags + [f]) <==> AllTrue(flags) && f
  {
    if AllTrue(flags) && f {
      forall i | 0 <= i < |flags + [f]|
        ensures (flags + [f])[i]
      {
        if i < |flags| {
          assert (flags + [f])[i] == flags[i];
        }
      }
    }
    if AllTrue(flags + [f]) {
      assert (flags + [f])[|flags|] == f;
      forall i | 0 <= i < |flags|
        ensures flags[i]
      {
        assert (flags + [f])[i] == flags[i];
      }
    }
  }

  lemma MembershipSnoc(urls: seq<Url>, url: Url, m: seq<Url>)
    ensures AllIn(urls + [url], m) <==> AllIn(urls, m) && url in m
    ensures NoneIn(urls + [url], m) <==> NoneIn(urls, m) && url !in m
  {
    var longer := urls + [url];
    assert longer[|urls|] == url;
    assert forall i :: 0 <= i < |urls| ==> longer[i] == urls[i];
  }

  /** Started at True, as `removeSubscribers` does, the accumulator says
      whether every email was a no-op. */
  lemma {:induction false} AggregateSkipsIffAllNoOp(flags: seq<bool>)
    ensures Aggregate(true, flags) <==> AllTrue(flags)
    decreases |flags|
  {
    if flags != [] {
      var init := flags[..|flags| - 1];
      AggregateSkipsIffAllNoOp(init);
      assert flags == init + [flags[|flags| - 1]];
      AllTrueSnoc(init, flags[|flags| - 1]);
    }
  }

  /** Started at False, as `addSubscribers` does, the accumulator is False
      whatever the flags, so the write is never skipped. */
  lemma AsWrittenAddAggregateNeverSkips(flags: seq<bool>)
    ensures !Aggregate(false, flags)
  {
  }

  /** The accumulator `addSubscribers` evidently intends, started at True as
      in `removeSubscribers`: it skips the write exactly when every URL of the
      batch was already subscribed, and skipping then loses nothing. */
  lemma IntendedAddBatchSkipsIffAllPresent(d: Doc, urls: seq<Url>)
    ensures Aggregate(true, AddAll(d, urls).1) <==> AllIn(urls, Members(d.subscribers))
    ensures Aggregate(true, AddAll(d, urls).1) ==> AddAll(d, urls).0 == d
  {
    AggregateSkipsIffAllNoOp(AddAll(d, urls).1);
    AddAllExistedIff(d, urls);
    if AllIn(urls, Members(d.subscribers)) {
      AddAllNoOp(d, urls);
    }
  }

  /** The loop of `addSubscribers`: every URL in order, threading the
      representation; the final representation and each email's flag. The
      old members stay first in their old order, and a well-shaped property
      stays well-shaped. */
  function AddAll(d: Doc, urls: seq<Url>): (r: (Doc, seq<bool>))
    ensures |r.1| == |urls|
    ensures Members(d.subscribers) <= Members(r.0.subscribers)
    ensures WellShaped(d.subscribers) ==> WellShaped(r.0.subscribers)
    decreases |urls|
  {
    if urls == [] then (d, [])
    else
      var (d1, flags) := AddAll(d, urls[..|urls| - 1]);
      var (d2, f) := AddToDoc(d1, urls[|urls| - 1]);
      (d2, flags + [f])
  }

  /** The loop of `removeSubscribers`: as `AddAll`. The namespace declaration
      is kept, and a well-shaped property stays well-shaped. */
  function RemoveAll(d: Doc, urls: seq<Url>): (r: (Doc, seq<bool>))
    ensures |r.1| == |urls|
    ensures r.0.rtcCmNs == d.rtcCmNs
    ensures WellShaped(d.subscribers) ==> WellShaped(r.0.subscribers)
    decreases |urls|
  {
    if urls == [] then (d, [])
    else
      var (d1, flags) := RemoveAll(d, urls[..|urls| - 1]);
      var (d2, f) := RemoveFromDoc(d1, urls[|urls| - 1]);
      (d2, flags + [f])
  }

  /** One more URL at the end of a batch is one more step of the loop. */
  lemma AddAllSnoc(d: Doc, urls: seq<Url>, url: Url)
    ensures var (d1, flags) := AddAll(d, urls);
      AddAll(d, urls + [url]) == (AddToDoc(d1, url).0, flags + [AddToDoc(d1, url).1])
  {
    assert (urls + [url])[..|urls|] == urls;
  }

  lemma RemoveAllSnoc(d: Doc, urls: seq<Url>, url: Url)
    ensures var (d1, flags) := RemoveAll(d, urls);
      RemoveAll(d, urls + [url]) == (RemoveFromDoc(d1, url).0, flags + [RemoveFromDoc(d1, url).1])
  {
    assert (urls + [url])[..|urls|] == urls;
  }

  lemma AggregateSnoc(init: bool, flags: seq<bool>, f: bool)
    ensures Aggregate(init, flags + [f]) == (Aggregate(init, flags) && f)
  {
    assert (flags + [f])[..|flags|] == flags;
  }

  /** A batch of URLs that are all present already changes nothing. */
  lemma {:induction false} AddAllNoOp(d: Doc, urls: seq<Url>)
    requires AllIn(urls, Members(d.subscribers))
    ensures AddAll(d, urls).0 == d
    decreases |urls|
  {
    if urls != [] {
      AddAllNoOp(d, urls[..|urls| - 1]);
    }
  }

  /** Every flag of an add batch is "existed" exactly when every URL of the
      batch was present before it, so the write is needed exactly when some
      URL is new. */
  lemma {:induction false} AddAllExistedIff(d: Doc, urls: seq<Url>)
    ensures AllTrue(AddAll(d, urls).1) <==> AllIn(urls, Members(d.subscribers))
    decreases |urls|
  {
    if urls != [] {
      var n := |urls| - 1;
      var init := urls[..n];
      var prev := AddAll(d, init);
      var step := AddToDoc(prev.0, urls[n]);
      AddAllExistedIff(d, init);
      assert urls == init + [urls[n]];
      AddAllSnoc(d, init, urls[n]);
      AllTrueSnoc(prev.1, step.1);
      MembershipSnoc(init, urls[n], Members(d.subscribers));
      if AllIn(init, Members(d.subscribers)) {
        AddAllNoOp(d, init);
      }
    }
  }


  /** After an add batch every URL of the batch is a member, nothing else
      new is, and a duplicate-free list stays duplicate-free. */
  lemma {:induction false} AddAllMembers(d: Doc, urls: seq<Url>)
    ensures var m := Members(AddAll(d, urls).0.subscribers);
      && Elems(m) == Elems(Members(d.subscribers)) + Elems(urls)
      && (NoDup(Members(d.subscribers)) ==> NoDup(m))
    decreases |urls|
  {
    if urls != [] {
      var n := |urls| - 1;
      var init, url := urls[..n], urls[n];
      assert urls == init + [url];
      AddAllSnoc(d, init, url);
      AddAllMembers(d, init);
      var d1 := AddAll(d, init).0;
        if NoDup(Members(d.subscribers)) {
        AddSetSpec(d1.subscribers, url);
      } else {
        AddElems(d1.subscribers, url);
      }
      ElemsSnoc(init, url);
    }
  }


  /** Adding makes the member set the old set plus the URL, duplicates or not. */
  lemma AddElems(s: Subs, url: Url)
    ensures Elems(Members(Add(s, url).0)) == Elems(Members(s)) + {url}
  {
    var us := Members(s);
    if url !in us {
      var vs := us + [url];
      assert Members(Add(s, url).0) == vs;
      assert Elems(vs) == Elems(us) + {url} by {
        forall u ensures u in vs <==> u in us || u == url {
          if u in vs {
            var k :| 0 <= k < |vs| && vs[k] == u;
          }
        }
      }
    }
  }

  /** A batch of URLs none of which is present changes nothing. */
  lemma {:induction false} RemoveAllNoOp(d: Doc, urls: seq<Url>)
    requires NoneIn(urls, Members(d.subscribers))
    ensures RemoveAll(d, urls).0 == d
    decreases |urls|
  {
    if urls != [] {
      RemoveAllNoOp(d, urls[..|urls| - 1]);
    }
  }

  /** Every flag of a remove batch is "missing" exactly when no URL of the
      batch was present before it, so the write is needed exactly when some
      URL was a member. */
  lemma {:induction false} RemoveAllMissingIff(d: Doc, urls: seq<Url>)
    ensures AllTrue(RemoveAll(d, urls).1) <==> NoneIn(urls, Members(d.subscribers))
    decreases |urls|
  {
    if urls != [] {
      var n := |urls| - 1;
      var init := urls[..n];
      var prev := RemoveAll(d, init);
      var step := RemoveFromDoc(prev.0, urls[n]);
      RemoveAllMissingIff(d, init);
      assert urls == init + [urls[n]];
      RemoveAllSnoc(d, init, urls[n]);
      AllTrueSnoc(prev.1, step.1);
      MembershipSnoc(init, urls[n], Members(d.subscribers));
      if NoneIn(init, Members(d.subscribers)) {
        RemoveAllNoOp(d, init);
      }
    }
  }


  /** After a remove batch on a duplicate-free member list, the list is still
      duplicate-free and its set is the old set without the batch's URLs. */
  lemma {:induction false} RemoveAllMembers(d: Doc, urls: seq<Url>)
    requires NoDup(Members(d.subscribers))
    ensures var m := Members(RemoveAll(d, urls).0.subscribers);
      NoDup(m) && Elems(m) == Elems(Members(d.subscribers)) - Elems(urls)
    decreases |urls|
  {
    if urls != [] {
      var n := |urls| - 1;
      var init, url := urls[..n], urls[n];
      assert urls == init + [url];
      RemoveAllSnoc(d, init, url);
      RemoveAllMembers(d, init);
      var r1 := RemoveAll(d, init);
      RemoveSetSpec(r1.0.subscribers, url);
      ElemsSnoc(init, url);
    }
  }

  lemma ElemsSnoc(us: seq<Url>, u: Url)
    ensures Elems(us + [u]) == Elems(us) + {u}
  {
  }

  /** The input that shows the `addSubscribers` accumulator at fault: one
      email whose URL is already subscribed. Its only flag is "existed", the
      intended accumulator would skip the write, the one as written does not. */
  lemma AddBatchOfPresentUrlStillWrites(d: Doc, url: Url)
    requires url in Members(d.subscribers)
    ensures AddAll(d, [url]) == (d, [true])
    ensures Aggregate(true, AddAll(d, [url]).1)
    ensures !Aggregate(false, AddAll(d, [url]).1)
  {
    var batch := [url];
    assert batch[..0] == [];
    var (d1, flags) := AddAll(d, batch[..0]);
    var (d2, f) := AddToDoc(d1, url);
    assert AddAll(d, batch) == (d2, flags + [f]);
    assert flags + [f] == [true];
  }
}
