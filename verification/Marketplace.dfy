/** The in-memory marketplace: one bucket of prices per marketplace and shop. */
module Marketplace {
  import opened Basics

  type Sku = string
  type Bucket = map<Sku, real>

  datatype PriceUpdate = PriceUpdate(sku: Sku, newPrice: real)

  // What `UpdatePrices` answers; an error can come after some updates took effect.
  datatype Answer = Accepted | Unauthorized | RateLimited | OtherError

  /** An unknown SKU is ignored. */
  function ApplyOne(b: Bucket, u: PriceUpdate): Bucket {
    if u.sku in b then b[u.sku := u.newPrice] else b
  }

  function ApplyAll(b: Bucket, updates: seq<PriceUpdate>): Bucket {
    if updates == [] then b else ApplyOne(ApplyAll(b, updates[..|updates| - 1]), updates[|updates| - 1])
  }

  /** Applying a list of updates prices exactly the known SKUs it names, each with the last
      price given for it, and adds no SKU. */
  lemma {:induction false} ApplyAllPrices(b: Bucket, updates: seq<PriceUpdate>)
    ensures ApplyAll(b, updates).Keys == b.Keys
    ensures forall sku :: sku in b && (forall u :: u in updates ==> u.sku != sku) ==>
              ApplyAll(b, updates)[sku] == b[sku]
    ensures forall k :: 0 <= k < |updates| && updates[k].sku in b
                        && (forall l :: k < l < |updates| ==> updates[l].sku != updates[k].sku) ==>
                          ApplyAll(b, updates)[updates[k].sku] == updates[k].newPrice
  {
    if updates != [] {
      var init := updates[..|updates| - 1];
      ApplyAllPrices(b, init);
      forall k | 0 <= k < |updates| && updates[k].sku in b
                 && (forall l :: k < l < |updates| ==> updates[l].sku != updates[k].sku)
        ensures ApplyAll(b, updates)[updates[k].sku] == updates[k].newPrice
      {
        if k < |init| {
          assert updates[|updates| - 1].sku != updates[k].sku;
          assert forall l :: k < l < |init| ==> init[l].sku == updates[l].sku != init[k].sku;
        }
      }
    }
  }

  /** A price that a list of updates has changed is one that the list gives for its SKU. */
  lemma {:induction false} ChangedPriceIsGiven(b: Bucket, updates: seq<PriceUpdate>, sku: Sku)
    requires sku in b
    ensures sku in ApplyAll(b, updates)
    ensures ApplyAll(b, updates)[sku] == b[sku]
            || exists u :: u in updates && u.sku == sku && ApplyAll(b, updates)[sku] == u.newPrice
  {
    if updates != [] {
      var init, last := updates[..|updates| - 1], updates[|updates| - 1];
      ChangedPriceIsGiven(b, init, sku);
      if last.sku == sku {
        assert last in updates;
      } else if ApplyAll(b, init)[sku] != b[sku] {
        var u :| u in init && u.sku == sku && ApplyAll(b, init)[sku] == u.newPrice;
        assert u in updates;
      }
    }
  }

  /** `data` maps marketplace and shop to a bucket, filled from `seed` at first use. */
  class Store {
    var data: map<(string, string), Bucket>
    const seed: map<string, Bucket>

    constructor (seed: map<string, Bucket>)
      ensures data == map[] && this.seed == seed
    {
      data, this.seed := map[], seed;
    }

    /** The bucket a caller sees. */
    function View(marketplace: string, shop: string): Bucket
      reads this
    {
      if (marketplace, shop) in data then data[(marketplace, shop)]
      else if marketplace in seed then seed[marketplace]
      else map[]
    }

    method EnsureSeeded(marketplace: string, shop: string)
      modifies this
      ensures (marketplace, shop) in data
      ensures forall m, s :: View(m, s) == old(View(m, s))
    {
      if (marketplace, shop) in data {
        return;
      }
      data := data[(marketplace, shop) := if marketplace in seed then seed[marketplace] else map[]];
    }

    /** All updates of the call, on this bucket alone. */
    method Apply(marketplace: string, shop: string, updates: seq<PriceUpdate>)
      modifies this
      ensures View(marketplace, shop) == ApplyAll(old(View(marketplace, shop)), updates)
      ensures forall m, s :: (m, s) != (marketplace, shop) ==> View(m, s) == old(View(m, s))
    {
      EnsureSeeded(marketplace, shop);
      var bucket := data[(marketplace, shop)];
      for k := 0 to |updates|
        invariant bucket == ApplyAll(old(View(marketplace, shop)), updates[..k])
      {
        assert updates[..k + 1][..k] == updates[..k];
        if updates[k].sku in bucket {
          bucket := bucket[updates[k].sku := updates[k].newPrice];
        }
      }
      assert updates[..|updates|] == updates;
      data := data[(marketplace, shop) := bucket];
    }
  }
}
