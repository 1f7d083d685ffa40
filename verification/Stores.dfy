/** The two-tier store as an object, driven by one caller at a time (internal/cache/router.go). */
module Stores {
  import opened Objects
  import Router
  import Ram
  import DiskTiers
  import Shards
  import Reload

  class Store {
    const cfg: Router.Config
    const ram: Ram.RamTier
    const disk: DiskTiers.DiskTier
    /** The object of each key's last commit that was stored (at opening: what the disk holds). */
    ghost var stored: imap<string, Object>

    /** No key is in both tiers, and what is served is what was stored last. */
    ghost predicate Valid()
      reads this, ram, disk
    {
      && ram.Valid() && disk.Valid() && ram.maxBytes == cfg.ramMaxBytes
      && (forall k :: ram.Lookup(k) == None || disk.Lookup(k) == None)
      && (forall k :: Content(k) == None || (k in stored && Content(k) == Some(stored[k])))
    }

    /** Lookups find exactly these objects. */
    ghost predicate Shows(content: map<string, Object>)
      requires ram.Valid() && disk.Valid()
      reads this, ram, disk
    {
      forall k :: Content(k) == if k in content then Some(content[k]) else None
    }

    /** A lookup: RAM first, then disk. */
    ghost function Content(k: string): Option<Object>
      requires ram.Valid() && disk.Valid()
      reads this, ram, disk
    {
      if ram.Lookup(k) != None then ram.Lookup(k) else disk.Lookup(k)
    }

    /** Opening resolves the limits; what is served at first is what the disk holds. */
    constructor (cfg: Router.Config, ram: Ram.RamTier, disk: DiskTiers.DiskTier)
      requires ram.Valid() && disk.Valid() && ram.maxBytes == cfg.ramMaxBytes
      requires forall k :: ram.Lookup(k) == None
      ensures Valid() && this.ram == ram && this.disk == disk && this.cfg == Router.Resolve(cfg)
      ensures forall k :: Content(k) == disk.Lookup(k)
    {
      this.cfg, this.ram, this.disk := Router.Resolve(cfg), ram, disk;
      stored := imap k | disk.Lookup(k).Some? :: disk.Lookup(k).value;
    }

    /** Serves the copy of whichever tier holds the key, with the tier that served it. */
    method GetTier(key: string, openOk: bool) returns (r: Option<Object>, tier: Option<Router.Tier>)
      requires Valid()
      modifies ram, disk
      ensures Valid() && stored == old(stored)
      ensures r == None || (key in stored && r == Some(stored[key]))
      ensures openOk ==> r == old(Content(key)) && forall k :: Content(k) == old(Content(k))
      ensures r == None <==> tier == None
      ensures tier == Some(Router.RamTier) ==> r == old(ram.Lookup(key))
      ensures tier == Some(Router.DiskTier) ==> r == old(disk.Lookup(key))
    {
      hide Ram.RamTier.Valid, Ram.RamTier.Lookup, DiskTiers.DiskTier.Valid, DiskTiers.DiskTier.Lookup;
      r := ram.Get(key);
      if r != None {
        return r, Some(Router.RamTier);
      }
      r := disk.Get(key, openOk);
      tier := if r != None then Some(Router.DiskTier) else None;
    }

    /** Writes one object: route it, commit it, and drop the other tier's copy only if it was really
        stored. `overflow` is a RAM writer that gave up; `renameOk` a disk commit's rename. */
    method Put(meta: ObjectMeta, ext: string, body: seq<byte>, overflow: bool, renameOk: bool)
      returns (installed: bool, failed: bool)
      requires Valid()
      modifies this`stored, ram, disk
      ensures Valid()
      ensures Router.TierFor(cfg, meta, ext) == Router.RamTier ==>
                (installed <==> !overflow && |body| <= Router.ShardLimit(cfg, ram.hash, meta.key))
      ensures installed ==> Content(meta.key) == Some(Object(meta.(size := |body|), body))
      ensures stored == if installed then old(stored)[meta.key := Object(meta.(size := |body|), body)] else old(stored)
      ensures !installed && !failed ==> Content(meta.key) == old(Content(meta.key))
      ensures failed ==> !installed && Content(meta.key) == old(ram.Lookup(meta.key))
      ensures forall k :: k != meta.key ==> Content(k) == None || Content(k) == old(Content(k))
    {
      hide Valid, Content;
      if Router.TierFor(cfg, meta, ext) == Router.RamTier {
        installed := PutRam(meta, body, overflow);
        failed := false;
      } else {
        installed, failed := PutDisk(meta, body, renameOk);
      }
    }

    /** The cap of the key's shard. */
    lemma RamLimit(key: string)
      requires ram.maxBytes == cfg.ramMaxBytes
      ensures Router.ShardLimit(cfg, ram.hash, key) == Shards.Cap(ram.maxBytes, Shards.ShardCount(ram.maxBytes), ram.Home(key))
    {
    }

    method PutRam(meta: ObjectMeta, body: seq<byte>, overflow: bool) returns (installed: bool)
      requires Valid()
      modifies this`stored, ram, disk
      ensures Valid()
      ensures installed <==> !overflow && |body| <= Router.ShardLimit(cfg, ram.hash, meta.key)
      ensures installed ==> Content(meta.key) == Some(Object(meta.(size := |body|), body))
      ensures stored == if installed then old(stored)[meta.key := Object(meta.(size := |body|), body)] else old(stored)
      ensures !installed ==> Content(meta.key) == old(Content(meta.key))
      ensures forall k :: k != meta.key ==> Content(k) == None || Content(k) == old(Content(k))
    {
      hide Ram.RamTier.Valid, Ram.RamTier.Lookup, DiskTiers.DiskTier.Valid, DiskTiers.DiskTier.Lookup;
      hide Ram.View, Ram.AfterCommit, DiskTiers.DiskTier.Home, Ram.RamTier.Home, Router.ShardLimit, Shards.Cap;
      RamLimit(meta.key);
      installed := false;
      if !overflow {
        installed := ram.Commit(meta, body);
      }
      if installed {
        disk.Delete(meta.key);
        stored := stored[meta.key := Object(meta.(size := |body|), body)];
      }
    }

    method PutDisk(meta: ObjectMeta, body: seq<byte>, renameOk: bool) returns (installed: bool, failed: bool)
      requires Valid()
      modifies this`stored, ram, disk
      ensures Valid()
      ensures installed ==> Content(meta.key) == Some(Object(meta.(size := |body|), body))
      ensures stored == if installed then old(stored)[meta.key := Object(meta.(size := |body|), body)] else old(stored)
      ensures !installed && !failed ==> Content(meta.key) == old(Content(meta.key))
      ensures failed ==> !installed && Content(meta.key) == old(ram.Lookup(meta.key))
      ensures forall k :: k != meta.key ==> Content(k) == None || Content(k) == old(Content(k))
    {
      hide Ram.RamTier.Valid, Ram.RamTier.Lookup, DiskTiers.DiskTier.Valid, DiskTiers.DiskTier.Lookup;
      installed, failed := disk.WriteObject(meta, body, renameOk);
      if installed {
        ram.Delete(meta.key);
        stored := stored[meta.key := Object(meta.(size := |body|), body)];
      }
    }

    /** Drops every object from both tiers and persists the emptied index, if it can be written. */
    method Reset(ok: bool)
      requires Valid()
      modifies ram, disk
      ensures Valid() && stored == old(stored)
      ensures forall k :: Content(k) == None
    {
      hide Ram.RamTier.Valid, Ram.RamTier.Lookup, DiskTiers.DiskTier.Valid, DiskTiers.DiskTier.Lookup;
      ram.Reset();
      disk.Reset(ok);
    }
  }

  /** The flush of a store, as reloads see it (Reload.Emptied), is what Reset does to the store itself. */
  method Flush(store: Store, ghost stores: Reload.Stores, ghost id: nat, ok: bool)
    requires store.Valid() && id in stores && store.Shows(stores[id].content)
    modifies store.ram, store.disk
    ensures store.Valid() && store.Shows(Reload.Emptied(stores, id)[id].content)
  {
    hide Ram.RamTier.Valid, Ram.RamTier.Lookup, DiskTiers.DiskTier.Valid, DiskTiers.DiskTier.Lookup, Store.Content;
    store.Reset(ok);
  }
}
