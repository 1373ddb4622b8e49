/** The loops that encrypt a batch in place before a push and decrypt a pulled batch in place. */
module Payloads {
  import opened Records
  import opened Crypto

  /** Tombstones and empty payloads travel as they are. */
  predicate Opaque(item: Item) {
    item.deleted || |item.payload| == 0
  }

  /** What the push loop makes of an item when the random source delivers `random`. */
  function Sealed(c: Crypto, item: Item, random: Bytes): Item
    requires Opaque(item) || c.Encrypt(item.payload, random).Success?
  {
    if Opaque(item) then item else item.(payload := c.Encrypt(item.payload, random).value)
  }

  /** What the pull loop makes of an item. */
  function Opened(c: Crypto, item: Item): Item
    requires Opaque(item) || c.Decrypt(item.payload).Success?
  {
    if Opaque(item) then item else item.(payload := c.Decrypt(item.payload).value)
  }

  predicate CanSeal(c: Crypto, item: Item, random: Bytes) {
    Opaque(item) || c.Encrypt(item.payload, random).Success?
  }

  predicate CanOpen(c: Crypto, item: Item) {
    Opaque(item) || c.Decrypt(item.payload).Success?
  }

  ghost predicate AllSealable(c: Crypto, items: seq<Item>, random: nat -> Bytes) {
    forall i :: 0 <= i < |items| ==> CanSeal(c, items[i], random(i))
  }

  ghost predicate AllOpenable(c: Crypto, items: seq<Item>) {
    forall i :: 0 <= i < |items| ==> CanOpen(c, items[i])
  }

  ghost function SealAll(c: Crypto, items: seq<Item>, random: nat -> Bytes): seq<Item>
    requires AllSealable(c, items, random)
  {
    seq(|items|, i requires 0 <= i < |items| => Sealed(c, items[i], random(i)))
  }

  ghost function OpenAll(c: Crypto, items: seq<Item>): seq<Item>
    requires AllOpenable(c, items)
  {
    seq(|items|, i requires 0 <= i < |items| => Opened(c, items[i]))
  }

  /** Encrypts in place up to the first item that cannot be encrypted; `random(i)` feeds item `i`. */
  method EncryptItems(c: Crypto, items: array<Item>, random: nat -> Bytes) returns (done: nat)
    modifies items
    ensures done <= items.Length
    ensures AllSealable(c, old(items[..done]), random)
    ensures items[..] == SealAll(c, old(items[..done]), random) + old(items[done..])
    ensures done < items.Length ==> !CanSeal(c, old(items[done]), random(done))
    // tombstones and empty payloads as they are, of the others the payload alone
    ensures forall j :: 0 <= j < done ==>
              if old(items[j].deleted) || old(items[j].payload) == [] then items[j] == old(items[j])
              else c.Encrypt(old(items[j].payload), random(j)) == Success(items[j].payload)
                   && items[j] == old(items[j]).(payload := items[j].payload)
  {
    for i := 0 to items.Length
      invariant forall j :: 0 <= j < i ==> CanSeal(c, old(items[j]), random(j))
      invariant forall j :: 0 <= j < i ==> items[j] == Sealed(c, old(items[j]), random(j))
      invariant forall j :: i <= j < items.Length ==> items[j] == old(items[j])
    {
      if items[i].deleted || |items[i].payload| == 0 {
        continue;
      }
      var enc := c.Encrypt(items[i].payload, random(i));
      if enc.Failure? {
        return i;
      }
      items[i] := items[i].(payload := enc.value);
    }
    done := items.Length;
  }

  /** Decrypts in place up to the first item that cannot be decrypted. */
  method DecryptItems(c: Crypto, items: array<Item>) returns (done: nat)
    modifies items
    ensures done <= items.Length
    ensures AllOpenable(c, old(items[..done]))
    ensures items[..] == OpenAll(c, old(items[..done])) + old(items[done..])
    ensures done < items.Length ==> !CanOpen(c, old(items[done]))
    ensures forall j :: 0 <= j < done ==>
              if old(items[j].deleted) || old(items[j].payload) == [] then items[j] == old(items[j])
              else c.Decrypt(old(items[j].payload)) == Success(items[j].payload)
                   && items[j] == old(items[j]).(payload := items[j].payload)
  {
    for i := 0 to items.Length
      invariant forall j :: 0 <= j < i ==> CanOpen(c, old(items[j]))
      invariant forall j :: 0 <= j < i ==> items[j] == Opened(c, old(items[j]))
      invariant forall j :: i <= j < items.Length ==> items[j] == old(items[j])
    {
      if items[i].deleted || |items[i].payload| == 0 {
        continue;
      }
      var dec := c.Decrypt(items[i].payload);
      if dec.Failure? {
        return i;
      }
      items[i] := items[i].(payload := dec.value);
    }
    done := items.Length;
  }

  /** Sealing makes no item opaque that was not, so what was sealed is what gets opened. */
  lemma OpenSealed(c: Crypto, item: Item, random: Bytes)
    requires OpenInvertsSeal(c.aead) && CanSeal(c, item, random)
    ensures Opaque(Sealed(c, item, random)) <==> Opaque(item)
    ensures CanOpen(c, Sealed(c, item, random))
    ensures Opened(c, Sealed(c, item, random)) == item
  {
  }

  /** The pull loop run on what the push loop left opens every item and gives the batch back. */
  lemma OpenAllSealAll(c: Crypto, items: seq<Item>, random: nat -> Bytes)
    requires OpenInvertsSeal(c.aead) && AllSealable(c, items, random)
    ensures AllOpenable(c, SealAll(c, items, random))
    ensures OpenAll(c, SealAll(c, items, random)) == items
  {
    hide Sealed, Opened;
    forall i | 0 <= i < |items|
      ensures CanOpen(c, Sealed(c, items[i], random(i))) && Opened(c, Sealed(c, items[i], random(i))) == items[i]
    {
      OpenSealed(c, items[i], random(i));
    }
  }
}
