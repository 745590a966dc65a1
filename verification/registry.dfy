/** The subscriber registry the dispatcher delegates to: for every category,
    an ordered list of subscribers keyed by url. `Add` overwrites an entry
    with the same url in place and appends otherwise; `Delete` removes the
    entries with a url and reports the one it removed. */
module Registry {
  import opened Wrappers
  import opened Model

  type Subscriptions = map<string, seq<Subscriber>>

  const Empty: Subscriptions := map[]

  /** The point-in-time listing of one category; an unknown category lists nothing. */
  function List(reg: Subscriptions, category: string): seq<Subscriber> {
    if category in reg then reg[category] else []
  }

  predicate HasUrl(subs: seq<Subscriber>, url: string) {
    exists i :: 0 <= i < |subs| && subs[i].url == url
  }

  /** The intended steady state of one category: at most one entry per url. */
  predicate UniqueUrls(subs: seq<Subscriber>) {
    forall i, j :: 0 <= i < j < |subs| ==> subs[i].url != subs[j].url
  }

  /** Every entry whose url is `s.url` replaced by `s`, positions kept. */
  function Replace(subs: seq<Subscriber>, s: Subscriber): (r: seq<Subscriber>)
    ensures |r| == |subs|
    ensures forall i :: 0 <= i < |subs| && subs[i].url == s.url ==> r[i] == s
    ensures forall i :: 0 <= i < |subs| && subs[i].url != s.url ==> r[i] == subs[i]
  {
    if subs == [] then []
    else [if subs[0].url == s.url then s else subs[0]] + Replace(subs[1..], s)
  }

  /** Replacing by `s` keeps exactly the entries with other urls, and adds `s`
      when some entry had its url. */
  lemma ReplaceMembers(subs: seq<Subscriber>, s: Subscriber)
    ensures forall x :: x in Replace(subs, s) ==> x == s || (x in subs && x.url != s.url)
    ensures forall x :: x in subs && x.url != s.url ==> x in Replace(subs, s)
    ensures HasUrl(subs, s.url) ==> s in Replace(subs, s)
  {
    var r := Replace(subs, s);
    forall x | x in r
      ensures x == s || (x in subs && x.url != s.url)
    {
      var k :| 0 <= k < |r| && r[k] == x;
    }
    forall x | x in subs && x.url != s.url
      ensures x in r
    {
      var k :| 0 <= k < |subs| && subs[k] == x;
      assert r[k] == x;
    }
    if HasUrl(subs, s.url) {
      var i :| 0 <= i < |subs| && subs[i].url == s.url;
      assert r[i] == s;
    }
  }

  /** Insert-or-overwrite keyed by url. */
  function Upsert(subs: seq<Subscriber>, s: Subscriber): (r: seq<Subscriber>)
    ensures s in r
    ensures forall x :: x in r <==> x == s || (x in subs && x.url != s.url)
    ensures forall i :: 0 <= i < |r| && r[i].url == s.url ==> r[i] == s
    ensures HasUrl(subs, s.url) ==> |r| == |subs|
    ensures HasUrl(subs, s.url) ==>
              forall i :: 0 <= i < |subs| ==> r[i] == (if subs[i].url == s.url then s else subs[i])
    ensures !HasUrl(subs, s.url) ==> r == subs + [s]
    ensures UniqueUrls(subs) ==> UniqueUrls(r)
  {
    ReplaceMembers(subs, s);
    if HasUrl(subs, s.url) then Replace(subs, s) else subs + [s]
  }

  /** Every entry except those whose url is `url`, order kept. */
  function RemoveUrl(subs: seq<Subscriber>, url: string): (r: seq<Subscriber>)
    ensures |r| <= |subs|
    ensures forall x :: x in r <==> x in subs && x.url != url
    ensures !HasUrl(r, url)
    ensures !HasUrl(subs, url) ==> r == subs
    ensures UniqueUrls(subs) ==> UniqueUrls(r)
  {
    if subs == [] then []
    else if subs[0].url == url then RemoveUrl(subs[1..], url)
    else
      var rest := RemoveUrl(subs[1..], url);
      assert forall x :: x in subs[1..] ==> x in subs;
      [subs[0]] + rest
  }

  /** The first entry whose url is `url`, if there is one. */
  function FindUrl(subs: seq<Subscriber>, url: string): (r: Option<Subscriber>)
    ensures r.None? <==> !HasUrl(subs, url)
    ensures r.Some? ==> r.value in subs && r.value.url == url
    ensures r.Some? ==> exists i :: 0 <= i < |subs| && subs[i] == r.value
                                  && forall j :: 0 <= j < i ==> subs[j].url != url
  {
    if subs == [] then None
    else if subs[0].url == url then Some(subs[0])
    else
      var r := FindUrl(subs[1..], url);
      if r.Some? then
        var i :| 0 <= i < |subs[1..]| && subs[1..][i] == r.value
                 && forall j :: 0 <= j < i ==> subs[1..][j].url != url;
        assert subs[i + 1] == r.value;
        r
      else
        r
  }

  /** In a list with unique urls, removing a present url cuts out exactly
      that one entry and keeps the others in order. */
  lemma {:induction false} RemoveUrlSplice(subs: seq<Subscriber>, i: nat)
    requires UniqueUrls(subs)
    requires i < |subs|
    ensures RemoveUrl(subs, subs[i].url) == subs[..i] + subs[i + 1..]
    decreases i
  {
    var url := subs[i].url;
    if i == 0 {
      assert !HasUrl(subs[1..], url);
    } else {
      assert subs[0].url != url;
      RemoveUrlSplice(subs[1..], i - 1);
      assert subs[..i] == [subs[0]] + subs[1..][..i - 1];
      assert subs[i + 1..] == subs[1..][i..];
    }
  }

  /** With unique urls, the entry the lookup finds is the one removal cuts out. */
  lemma FoundSplice(subs: seq<Subscriber>, url: string)
    ensures UniqueUrls(subs) && FindUrl(subs, url).Some? ==>
              exists i :: 0 <= i < |subs| && subs[i] == FindUrl(subs, url).value
                          && RemoveUrl(subs, url) == subs[..i] + subs[i + 1..]
  {
    var found := FindUrl(subs, url);
    if UniqueUrls(subs) && found.Some? {
      var i :| 0 <= i < |subs| && subs[i] == found.value
               && forall j :: 0 <= j < i ==> subs[j].url != url;
      RemoveUrlSplice(subs, i);
    }
  }

  /** The registry's add: store `s` under `category` (overwriting by url) and
      return the stored subscriber. */
  function Add(reg: Subscriptions, category: string, s: Subscriber): (r: (Subscriptions, Subscriber))
    ensures r.1 == s && s in List(r.0, category)
    ensures forall x :: x in List(r.0, category) <==> x == s || (x in List(reg, category) && x.url != s.url)
    ensures HasUrl(List(reg, category), s.url) ==>
              && |List(r.0, category)| == |List(reg, category)|
              && forall i :: 0 <= i < |List(reg, category)| ==>
                   List(r.0, category)[i] == (if List(reg, category)[i].url == s.url then s else List(reg, category)[i])
    ensures !HasUrl(List(reg, category), s.url) ==> List(r.0, category) == List(reg, category) + [s]
    ensures forall k :: k != category ==> List(r.0, k) == List(reg, k)
  {
    (reg[category := Upsert(List(reg, category), s)], s)
  }

  /** The registry's delete: remove the entry keyed by `url` under `category` and
      return it, or report that there was none and change nothing. */
  function Delete(reg: Subscriptions, category: string, url: string): (r: (Subscriptions, Option<Subscriber>))
    ensures r.1.None? <==> !HasUrl(List(reg, category), url)
    ensures r.1.None? ==> r.0 == reg
    ensures r.1.Some? ==> r.1.value in List(reg, category) && r.1.value.url == url
    ensures forall x :: x in List(r.0, category) <==> x in List(reg, category) && x.url != url
    ensures UniqueUrls(List(reg, category)) && r.1.Some? ==>
              exists i :: 0 <= i < |List(reg, category)| && List(reg, category)[i] == r.1.value
                          && List(r.0, category) == List(reg, category)[..i] + List(reg, category)[i + 1..]
    ensures forall k :: k != category ==> List(r.0, k) == List(reg, k)
  {
    var subs := List(reg, category);
    var found := FindUrl(subs, url);
    if found.None? then (reg, None)
    else
      var reg' := reg[category := RemoveUrl(subs, url)];
      FoundSplice(subs, url);
      (reg', found)
  }
}
