/**
 * The process-wide LibVLC holder (VLCInstance.java): a lazily built shared
 * engine library, released and rebuilt on demand.
 *
 * Java keeps the instance in a static field; here the holder is one object
 * whose field plays that role. Library instances are identified by number,
 * and the construction and release calls the holder makes on them are
 * recorded in ghost logs.
 */
module VlcInstance {
  import opened Wrappers

  class VlcLibraryHolder {
    /** The static `libVLC` field: None is Java's null. */
    var libVlc: Option<nat>
    /** Identifier the next `new LibVLC(...)` will get. */
    var nextId: nat
    ghost var built: seq<nat>
    ghost var released: seq<nat>

    ghost predicate Valid()
      reads this
    {
      && (forall i :: 0 <= i < |built| ==> built[i] < nextId)
      && (forall i, j :: 0 <= i < j < |released| ==> released[i] != released[j])
      && (forall i :: 0 <= i < |released| ==> released[i] in built)
      && (libVlc.Some? ==> libVlc.value in built && libVlc.value !in released)
    }

    constructor ()
      ensures Valid()
      ensures libVlc == None && built == [] && released == []
    {
      libVlc := None;
      nextId := 0;
      built := [];
      released := [];
    }

    /** VLCInstance.getInstance: builds a library only when none is held, and never returns null. */
    method GetInstance() returns (lib: nat)
      requires Valid()
      modifies this
      ensures Valid()
      ensures libVlc == Some(lib)
      ensures old(libVlc).Some? ==> lib == old(libVlc).value && built == old(built) && nextId == old(nextId)
      ensures old(libVlc).None? ==> lib !in old(built) && built == old(built) + [lib]
      ensures released == old(released)
    {
      if libVlc.None? {
        lib := nextId;
        nextId := nextId + 1;
        built := built + [lib];
        libVlc := Some(lib);
      } else {
        lib := libVlc.value;
      }
    }

    /** VLCInstance.release: releases the held library once and forgets it; a no-op when none is held. */
    method Release()
      requires Valid()
      modifies this
      ensures Valid()
      ensures libVlc == None
      ensures old(libVlc).Some? ==> released == old(released) + [old(libVlc).value]
      ensures old(libVlc).None? ==> released == old(released)
      ensures built == old(built) && nextId == old(nextId)
    {
      if libVlc.Some? {
        released := released + [libVlc.value];
        libVlc := None;
      }
    }
  }

  /**
   * Two releases in a row release the library once; a later getInstance
   * builds a library different from every one built before.
   */
  method ReleaseTwiceThenGet(holder: VlcLibraryHolder) returns (lib: nat)
    requires holder.Valid()
    modifies holder
    ensures holder.Valid()
    ensures |holder.released| <= |old(holder.released)| + 1
    ensures old(holder.libVlc).Some? ==> holder.released == old(holder.released) + [old(holder.libVlc).value]
    ensures lib !in old(holder.built) && holder.libVlc == Some(lib)
  {
    holder.Release();
    holder.Release();
    lib := holder.GetInstance();
  }
}
