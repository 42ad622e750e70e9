/** The flat device the client believes in: one byte array, zero at first, changed by every
    acknowledged write and by nothing else. This is the specification; no slave occurs in it. */
module Device {
  import opened Base
  import opened Data
  import opened ByteArray
  import opened Protocol

  datatype Device = Device(flat: bytes, pending: map<int, (bytes, DriverData)>, used: set<int>)

  function Fresh(): Device {
    Device([], map[], {})
  }

  /** The flat bytes after one event. */
  function FlatStep(flat: bytes, e: Event): bytes {
    if e.Answered? && e.request.kind == WRITE then Overlay(flat, e.request.offset, e.request.buffer) else flat
  }

  predicate Allowed(d: Device, e: Event) {
    match e
    case Accepted(id, _, request) =>
      id !in d.used && forall j :: j in d.pending ==> !Overlap(d.pending[j].1, request)
    case Answered(id, handle, request, data) =>
      && id in d.pending && d.pending[id] == (handle, request)
      && data == if request.kind == READ then ReadBack(d.flat, request.offset, request.len) else []
    case Internal => true
  }

  function Next(d: Device, e: Event): Device {
    match e
    case Accepted(id, handle, request) => d.(pending := d.pending[id := (handle, request)], used := d.used + {id})
    case Answered(id, _, _, _) => d.(flat := FlatStep(d.flat, e), pending := d.pending - {id})
    case Internal => d
  }

  function After(t: seq<Event>): Device {
    if t == [] then Fresh() else Next(After(t[..|t| - 1]), t[|t| - 1])
  }

  /** Every event of the trace is one the flat device allows where it happens. */
  predicate Follows(t: seq<Event>) {
    t == [] || (Follows(t[..|t| - 1]) && Allowed(After(t[..|t| - 1]), t[|t| - 1]))
  }

  /** The byte the latest acknowledged write put at p; zero where none did. */
  function LatestWrite(t: seq<Event>, p: nat): byte {
    if t == [] then 0
    else
      var e := t[|t| - 1];
      if e.Answered? && e.request.kind == WRITE && e.request.offset <= p < e.request.offset + |e.request.buffer|
      then e.request.buffer[p - e.request.offset]
      else LatestWrite(t[..|t| - 1], p)
  }

  /** The flat array and the list of acknowledged writes tell the same story. */
  lemma {:induction false} FlatIsLatestWrite(t: seq<Event>, p: nat)
    ensures At(After(t).flat, p) == LatestWrite(t, p)
  {
    if t != [] {
      var e := t[|t| - 1];
      FlatIsLatestWrite(t[..|t| - 1], p);
      if e.Answered? && e.request.kind == WRITE {
        OverlayAt(After(t[..|t| - 1]).flat, e.request.offset, e.request.buffer, p);
      }
    }
  }

  lemma {:induction false} FollowsPrefix(t: seq<Event>, n: nat)
    requires n <= |t| && Follows(t)
    ensures Follows(t[..n])
  {
    if n < |t| {
      FollowsPrefix(t[..|t| - 1], n);
      assert t[..|t| - 1][..n] == t[..n];
    } else {
      assert t[..n] == t;
    }
  }

  /** If event k is an answered READ, it carries, byte for byte, the latest acknowledged write,
      and zero where nothing was ever written. */
  ghost predicate ReadsLatest(t: seq<Event>, k: nat)
    requires k < |t|
  {
    t[k].Answered? && t[k].request.kind == READ ==>
      && |t[k].data| == t[k].request.len
      && forall i :: 0 <= i < t[k].request.len ==> t[k].data[i] == LatestWrite(t[..k], t[k].request.offset + i)
  }

  lemma FlatReadIsLatest(t: seq<Event>, offset: nat, len: nat)
    ensures forall i :: 0 <= i < len ==> ReadBack(After(t).flat, offset, len)[i] == LatestWrite(t, offset + i)
  {
    hide After, LatestWrite;
    forall i | 0 <= i < len
      ensures ReadBack(After(t).flat, offset, len)[i] == LatestWrite(t, offset + i)
    {
      FlatIsLatestWrite(t, offset + i);
    }
  }

  /** That is what following the flat device means to a reader. */
  lemma FollowersReadLatest(t: seq<Event>, k: nat)
    requires k < |t| && Follows(t)
    ensures ReadsLatest(t, k)
  {
    FollowsPrefix(t, k + 1);
    assert t[..k + 1][..k] == t[..k] && t[..k + 1][k] == t[k];
    assert Allowed(After(t[..k]), t[k]);
    hide After, LatestWrite, Follows, ReadBack;
    if t[k].Answered? && t[k].request.kind == READ {
      FlatReadIsLatest(t[..k], t[k].request.offset, t[k].request.len);
    }
  }

  /** A request that was accepted and not answered is still what the device has pending. */
  lemma {:induction false} StaysPending(t: seq<Event>, j: nat)
    requires j < |t| && Follows(t) && t[j].Accepted?
    requires forall i :: j < i < |t| && t[i].Answered? ==> t[i].id != t[j].id
    ensures t[j].id in After(t).used
    ensures t[j].id in After(t).pending && After(t).pending[t[j].id] == (t[j].handle, t[j].request)
  {
    if j < |t| - 1 {
      var before := t[..|t| - 1];
      assert forall i :: 0 <= i < |before| ==> before[i] == t[i];
      StaysPending(before, j);
      hide Overlap;
    }
  }

  /** Following the flat device also means: a request that is accepted while another one is unanswered has
      another id and no byte in common with it. */
  lemma FollowersKeepApart(t: seq<Event>, j: nat, k: nat)
    requires j < k < |t| && Follows(t) && t[j].Accepted? && t[k].Accepted?
    requires forall i :: j < i < k && t[i].Answered? ==> t[i].id != t[j].id
    ensures t[j].id != t[k].id
    ensures var a, b := t[j].request, t[k].request;
            a.len == 0 || b.len == 0 || a.offset + a.len <= b.offset || b.offset + b.len <= a.offset
  {
    FollowsPrefix(t, k + 1);
    assert t[..k + 1][..k] == t[..k] && t[..k + 1][k] == t[k];
    assert Follows(t[..k]) && Allowed(After(t[..k]), t[k]);
    StaysPending(t[..k], j);
    hide After, Follows;
  }
}
