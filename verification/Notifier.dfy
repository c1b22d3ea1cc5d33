/** The click events a flushed batch turns into. */
module Notifier {
  import opened Domain
  import opened ClickLog

  // A link.clicked event: the tenant and count aggregated for one link.
  datatype Clicked = Clicked(link: Id, tenant: Id, count: nat)

  datatype Agg = Agg(tenant: Id, count: nat)

  // The tenant of a link's first click in the batch.
  function FirstTenant(clicks: seq<Click>, link: Id): Option<Id> {
    if clicks == [] then None
    else if clicks[0].link == link then Some(clicks[0].tenant)
    else FirstTenant(clicks[1..], link)
  }

  lemma {:induction false} FirstTenantAppend(clicks: seq<Click>, c: Click, link: Id)
    ensures FirstTenant(clicks + [c], link) ==
            if FirstTenant(clicks, link).Some? then FirstTenant(clicks, link)
            else if c.link == link then Some(c.tenant) else None
  {
    if clicks == [] {
      assert clicks + [c] == [c] && [c][1..] == [];
    } else {
      assert (clicks + [c])[1..] == clicks[1..] + [c];
      FirstTenantAppend(clicks[1..], c, link);
    }
  }

  // It is the tenant of the click no earlier click of that link precedes; none without a click.
  lemma {:induction false} FirstTenantIs(clicks: seq<Click>, link: Id)
    ensures FirstTenant(clicks, link) == None <==> forall c :: c in clicks ==> c.link != link
    ensures forall i :: 0 <= i < |clicks| && clicks[i].link == link && (forall j :: 0 <= j < i ==> clicks[j].link != link) ==>
              FirstTenant(clicks, link) == Some(clicks[i].tenant)
  {
    if clicks != [] {
      var rest := clicks[1..];
      assert clicks == [clicks[0]] + rest;
      FirstTenantIs(rest, link);
      forall i | 0 < i < |clicks| && clicks[i].link == link && (forall j :: 0 <= j < i ==> clicks[j].link != link)
        ensures FirstTenant(clicks, link) == Some(clicks[i].tenant)
      {
        assert rest[i - 1] == clicks[i];
        assert forall j :: 0 <= j < i - 1 ==> rest[j] == clicks[j + 1];
      }
    }
  }

  // The aggregation as it stands after some of the clicks.
  ghost predicate Aggregates(byLink: map<Id, Agg>, clicks: seq<Click>) {
    && (forall id :: id in byLink ==> byLink[id].count == CountFor(clicks, id) > 0 && FirstTenant(clicks, id) == Some(byLink[id].tenant))
    && (forall id :: id !in byLink ==> CountFor(clicks, id) == 0 && FirstTenant(clicks, id) == None)
  }

  method Aggregate(clicks: seq<Click>) returns (byLink: map<Id, Agg>)
    ensures Aggregates(byLink, clicks)
  {
    byLink := map[];
    for i := 0 to |clicks|
      invariant Aggregates(byLink, clicks[..i])
    {
      var c := clicks[i];
      assert clicks[..i + 1] == clicks[..i] + [c];
      forall id
        ensures CountFor(clicks[..i + 1], id) == CountFor(clicks[..i], id) + if c.link == id then 1 else 0
        ensures FirstTenant(clicks[..i + 1], id) ==
                if FirstTenant(clicks[..i], id).Some? then FirstTenant(clicks[..i], id)
                else if c.link == id then Some(c.tenant) else None
      {
        CountAppend(clicks[..i], c, id);
        FirstTenantAppend(clicks[..i], c, id);
      }
      var a := if c.link in byLink then byLink[c.link] else Agg(c.tenant, 0);
      byLink := byLink[c.link := a.(count := a.count + 1)];
    }
    assert clicks[..|clicks|] == clicks;
  }

  /** One event per link of the batch, in some order, each carrying exactly the number of clicks the
      batch adds to that link's counter. */
  method ClicksFlushed(clicks: seq<Click>) returns (events: seq<Clicked>)
    ensures forall i, j :: 0 <= i < j < |events| ==> events[i].link != events[j].link
    ensures forall i :: 0 <= i < |events| ==>
      events[i].count == CountFor(clicks, events[i].link) > 0 &&
      FirstTenant(clicks, events[i].link) == Some(events[i].tenant)
    ensures forall id :: CountFor(clicks, id) > 0 ==> exists i :: 0 <= i < |events| && events[i].link == id
  {
    events := [];
    if clicks == [] {
      return;
    }
    var byLink := Aggregate(clicks);
    var todo := byLink.Keys;
    while todo != {}
      invariant todo <= byLink.Keys
      invariant forall i, j :: 0 <= i < j < |events| ==> events[i].link != events[j].link
      invariant forall i :: 0 <= i < |events| ==>
        events[i].link in byLink && events[i].link !in todo &&
        events[i] == Clicked(events[i].link, byLink[events[i].link].tenant, byLink[events[i].link].count)
      invariant forall id :: id in byLink && id !in todo ==> exists i :: 0 <= i < |events| && events[i].link == id
      decreases todo
    {
      var id :| id in todo;
      ghost var before := events;
      events := events + [Clicked(id, byLink[id].tenant, byLink[id].count)];
      todo := todo - {id};
      forall k | k in byLink && k !in todo
        ensures exists i :: 0 <= i < |events| && events[i].link == k
      {
        if k == id {
          assert events[|before|].link == k;
        } else {
          var i :| 0 <= i < |before| && before[i].link == k;
          assert events[i].link == k;
        }
      }
    }
  }

  function Total(links: seq<Id>, clicks: seq<Click>): nat {
    if links == [] then 0 else Total(links[..|links| - 1], clicks) + CountFor(clicks, links[|links| - 1])
  }

  lemma {:induction false} TotalAppend(links: seq<Id>, clicks: seq<Click>, c: Click)
    requires forall i, j :: 0 <= i < j < |links| ==> links[i] != links[j]
    ensures Total(links, clicks + [c]) == Total(links, clicks) + if c.link in links then 1 else 0
  {
    if links != [] {
      var front, last := links[..|links| - 1], links[|links| - 1];
      assert links == front + [last];
      TotalAppend(front, clicks, c);
      CountAppend(clicks, c, last);
    }
  }

  lemma {:induction false} TotalOfNone(links: seq<Id>)
    ensures Total(links, []) == 0
  {
    if links != [] {
      TotalOfNone(links[..|links| - 1]);
    }
  }

  /** The events of a batch account for each of its clicks once: distinct links that cover the batch
      carry counts that add up to its size. */
  lemma {:induction false} CountsAddUp(links: seq<Id>, clicks: seq<Click>)
    requires forall i, j :: 0 <= i < j < |links| ==> links[i] != links[j]
    requires forall c :: c in clicks ==> c.link in links
    ensures Total(links, clicks) == |clicks|
  {
    if clicks == [] {
      TotalOfNone(links);
    } else {
      var front, last := clicks[..|clicks| - 1], clicks[|clicks| - 1];
      assert clicks == front + [last];
      CountsAddUp(links, front);
      TotalAppend(links, front, last);
    }
  }
}
