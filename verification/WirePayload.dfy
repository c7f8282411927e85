/** Values travel in a payload beside the metadata; each item keeps the offset and size of its own. */
module WirePayload {
  import opened Common
  import opened WireFormat

  /** How an item type carries a value: reading and clearing it, and its place in the payload. */
  datatype Carrier<!T> = Carrier(
    carries: T -> bool, value: T -> Text, bare: T -> T, place: (T, nat, nat) -> T,
    fill: (T, Text) -> T, offset: T -> nat, size: T -> nat)

  predicate CheckedRange(offset: nat, size: nat) { offset <= MAX_UINT32 && size <= MAX_UINT32 }

  function Slice(payload: Text, offset: nat, size: nat): Option<Text> {
    if offset + size > |payload| then None else Some(payload[offset..offset + size])
  }

  datatype Packed<T> = Packed(items: seq<T>, payload: Text)

  function PackOne<T>(c: Carrier<T>, done: Packed<T>, x: T): Option<Packed<T>> {
    if !c.carries(x) then Some(Packed(done.items + [c.bare(x)], done.payload))
    else if !CheckedRange(|done.payload|, |c.value(x)|) then None
    else Some(Packed(done.items + [c.place(x, |done.payload|, |c.value(x)|)], done.payload + c.value(x)))
  }

  /** Appends the items' values to a payload that starts as `start`. */
  function Pack<T>(c: Carrier<T>, items: seq<T>, start: Text): Option<Packed<T>> {
    if items == [] then Some(Packed([], start))
    else
      match Pack(c, items[..|items| - 1], start)
      case None => None
      case Some(done) => PackOne(c, done, items[|items| - 1])
  }

  function UnpackOne<T>(c: Carrier<T>, x: T, payload: Text): Option<T> {
    if !c.carries(x) then Some(x)
    else match Slice(payload, c.offset(x), c.size(x))
         case None => None
         case Some(value) => Some(c.fill(x, value))
  }

  function Unpack<T>(c: Carrier<T>, items: seq<T>, payload: Text): Option<seq<T>> {
    if items == [] then Some([])
    else
      match (Unpack(c, items[..|items| - 1], payload), UnpackOne(c, items[|items| - 1], payload))
      case (Some(front), Some(last)) => Some(front + [last])
      case _ => None
  }

  /** What travels keeps the place of a value, and arriving with the value back it is as good as new. */
  ghost predicate Restores<T>(c: Carrier<T>, arrives: T -> T, plain: T -> T, x: T) {
    if c.carries(x) then
      forall offset, size :: Keeps(c, plain, x, arrives(c.place(x, offset, size)), offset, size)
    else
      !c.carries(arrives(c.bare(x))) && plain(arrives(c.bare(x))) == plain(x)
  }

  predicate Keeps<T(==)>(c: Carrier<T>, plain: T -> T, x: T, y: T, offset: nat, size: nat) {
    c.carries(y) && c.offset(y) == offset && c.size(y) == size && plain(c.fill(y, c.value(x))) == plain(x)
  }

  lemma {:induction false} PackGrows<T>(c: Carrier<T>, items: seq<T>, start: Text)
    requires Pack(c, items, start).Some?
    ensures |Pack(c, items, start).value.items| == |items| && start <= Pack(c, items, start).value.payload
  {
    if items != [] { PackGrows(c, items[..|items| - 1], start); }
  }

  /** Packing the last item over the others, which only adds to the payload. */
  lemma PackSnoc<T>(c: Carrier<T>, items: seq<T>, start: Text)
    requires items != [] && Pack(c, items, start).Some?
    ensures
      var front := Pack(c, items[..|items| - 1], start);
      && front.Some? && PackOne(c, front.value, items[|items| - 1]) == Pack(c, items, start)
      && front.value.payload <= Pack(c, items, start).value.payload
  {
  }

  lemma UnpackNothing<T>(c: Carrier<T>, items: seq<T>, payload: Text)
    requires items == []
    ensures Unpack(c, items, payload) == Some([])
  {
  }

  lemma MapSnoc<T>(f: T -> T, xs: seq<T>, x: T)
    ensures MapSeq(f, xs + [x]) == MapSeq(f, xs) + [f(x)]
  {
  }

  lemma UnpackSnoc<T>(c: Carrier<T>, xs: seq<T>, x: T, payload: Text)
    requires Unpack(c, xs, payload).Some? && UnpackOne(c, x, payload).Some?
    ensures Unpack(c, xs + [x], payload) == Some(Unpack(c, xs, payload).value + [UnpackOne(c, x, payload).value])
  {
    assert (xs + [x])[..|xs|] == xs;
  }

  lemma UnpackPacked<T>(c: Carrier<T>, arrives: T -> T, plain: T -> T, done: Packed<T>, x: T, payload: Text)
    requires Restores(c, arrives, plain, x) && PackOne(c, done, x).Some? && PackOne(c, done, x).value.payload <= payload
    ensures
      var all := PackOne(c, done, x).value;
      && all.items == done.items + [all.items[|done.items|]]
      && var out := UnpackOne(c, arrives(all.items[|done.items|]), payload);
      out.Some? && plain(out.value) == plain(x)
  {
    if c.carries(x) {
      var offset, value := |done.payload|, c.value(x);
      var all := done.payload + value;
      assert payload[..|all|] == all;
      assert payload[offset..offset + |value|] == all[offset..] == value;
      assert Slice(payload, offset, |value|) == Some(value);
      assert Keeps(c, plain, x, arrives(c.place(x, offset, |value|)), offset, |value|);
    }
  }

  /** Unpacking what was packed gives every item back, whatever is appended to the payload later. */
  lemma {:induction false} PackLaw<T>(c: Carrier<T>, arrives: T -> T, plain: T -> T, items: seq<T>, start: Text, payload: Text)
    requires Pack(c, items, start).Some? && Pack(c, items, start).value.payload <= payload
    requires forall i :: 0 <= i < |items| ==> Restores(c, arrives, plain, items[i])
    ensures
      var out := Unpack(c, MapSeq(arrives, Pack(c, items, start).value.items), payload);
      out.Some? && |out.value| == |items| && forall i :: 0 <= i < |items| ==> plain(out.value[i]) == plain(items[i])
  {
    hide Restores, PackOne, UnpackOne, Pack, Unpack;
    if items == [] {
      PackGrows(c, items, start);
      UnpackNothing(c, MapSeq(arrives, Pack(c, items, start).value.items), payload);
    } else {
      PackSnoc(c, items, start);
      var n := |items| - 1;
      var front, x := items[..n], items[n];
      var done := Pack(c, front, start).value;
      var all := Pack(c, items, start).value;
      PackLaw(c, arrives, plain, front, start, payload);
      PackGrows(c, front, start);
      UnpackPacked(c, arrives, plain, done, x, payload);
      MapSnoc(arrives, done.items, all.items[n]);
      UnpackSnoc(c, MapSeq(arrives, done.items), arrives(all.items[n]), payload);
    }
  }

  /** Bytes of payload the items carry. */
  function Carried<T>(c: Carrier<T>, items: seq<T>): nat {
    if items == [] then 0
    else Carried(c, items[..|items| - 1]) + if c.carries(items[|items| - 1]) then |c.value(items[|items| - 1])| else 0
  }

  /** Every carried value starts and has a size within 32 bits. */
  ghost predicate Addressable<T>(c: Carrier<T>, items: seq<T>, start: nat) {
    forall i :: 0 <= i < |items| && c.carries(items[i]) ==> CheckedRange(start + Carried(c, items[..i]), |c.value(items[i])|)
  }

  /** Packing fails exactly when some value is out of the payload's 32-bit reach. */
  lemma {:induction false} PackExact<T>(c: Carrier<T>, items: seq<T>, start: Text)
    ensures Pack(c, items, start).Some? <==> Addressable(c, items, |start|)
    ensures Pack(c, items, start).Some? ==> |Pack(c, items, start).value.payload| == |start| + Carried(c, items)
  {
    if items != [] {
      var front := items[..|items| - 1];
      PackExact(c, front, start);
      AddressableSnoc(c, items, |start|);
      PackCarried(c, items, start);
    }
  }

  lemma AddressableSnoc<T>(c: Carrier<T>, items: seq<T>, start: nat)
    requires items != []
    ensures
      var n := |items| - 1;
      Addressable(c, items, start) <==>
        Addressable(c, items[..n], start) && (c.carries(items[n]) ==> CheckedRange(start + Carried(c, items[..n]), |c.value(items[n])|))
  {
    hide Carried, CheckedRange;
    var n := |items| - 1;
    var front := items[..n];
    assert forall i :: 0 <= i < n ==> front[i] == items[i] && front[..i] == items[..i];
  }

  lemma PackCarried<T>(c: Carrier<T>, items: seq<T>, start: Text)
    requires items != []
    ensures
      var front := Pack(c, items[..|items| - 1], start);
      var x := items[|items| - 1];
      && (Pack(c, items, start).Some? <==> front.Some? && (c.carries(x) ==> CheckedRange(|front.value.payload|, |c.value(x)|)))
      && (Pack(c, items, start).Some? ==>
            |Pack(c, items, start).value.payload| == |front.value.payload| + if c.carries(x) then |c.value(x)| else 0)
  {
  }

  /** Packing only moves values: each item keeps everything but its value and place. */
  lemma {:induction false} PackedItem<T>(c: Carrier<T>, items: seq<T>, start: Text, i: nat)
    requires Pack(c, items, start).Some? && i < |items|
    ensures
      var out := Pack(c, items, start).value.items;
      && |out| == |items|
      && (c.carries(items[i]) ==> exists offset, size :: CheckedRange(offset, size) && out[i] == c.place(items[i], offset, size))
      && (!c.carries(items[i]) ==> out[i] == c.bare(items[i]))
  {
    PackGrows(c, items, start);
    if i < |items| - 1 {
      PackedItem(c, items[..|items| - 1], start, i);
      PackGrows(c, items[..|items| - 1], start);
    }
  }
}
