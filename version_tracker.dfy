/**
 * Change tracking by version counters. A `ChangeTracker` counts changes;
 * a `MutGuard` lends out a value together with the version that guards it
 * and bumps that version when the loan ends, whether or not the borrower
 * wrote anything. Versions wrap at 2^64.
 */
module VersionTracker {
  import opened Wrappers

  class ChangeTracker {
    var version: u64

    /** `new`: version 0. */
    constructor ()
      ensures version == 0
    {
      version := 0;
    }

    /** `changed`: one more change, wrapping. */
    method Changed()
      modifies this
      ensures version == WrappingIncU64(old(version))
    {
      version := WrappingIncU64(version);
    }

    function Version(): (v: u64)
      reads this
      ensures v == version
    {
      version
    }
  }

  /** The owner's side of a guarded value: the value and its version field. */
  class Versioned<T> {
    var data: T
    var version: u64

    constructor (data: T, version: u64)
      ensures this.data == data && this.version == version
    {
      this.data := data;
      this.version := version;
    }
  }

  /** A mutable loan of `cell.data`; dropping it bumps `cell.version`. */
  class MutGuard<T> {
    const cell: Versioned<T>

    /** `MutGuard::new`: taking the loan changes nothing yet. */
    constructor (cell: Versioned<T>)
      ensures this.cell == cell
    {
      this.cell := cell;
    }

    /** `Deref`. */
    function Get(): (v: T)
      reads cell
      ensures v == cell.data
    {
      cell.data
    }

    /** `DerefMut` followed by an assignment through it; the version is not touched yet. */
    method Set(v: T)
      modifies cell
      ensures cell.data == v && cell.version == old(cell.version)
    {
      cell.data := v;
    }

    /** `Drop`: always adds one to the version, wrapping. */
    method Drop()
      modifies cell
      ensures cell.data == old(cell.data)
      ensures cell.version == WrappingIncU64(old(cell.version))
    {
      cell.version := WrappingIncU64(cell.version);
    }
  }

  /** A whole guarded write: the new value is visible afterwards and the version went up by one. */
  method WriteThroughGuard<T>(cell: Versioned<T>, v: T)
    modifies cell
    ensures cell.data == v
    ensures cell.version == WrappingIncU64(old(cell.version))
  {
    var guard := new MutGuard(cell);
    guard.Set(v);
    guard.Drop();
  }

  /** `n` successive `changed` calls from a fresh tracker leave the version at `n` mod 2^64. */
  method ChangedMany(n: nat) returns (t: ChangeTracker)
    ensures fresh(t) && t.version == n % U64_MODULUS
  {
    t := new ChangeTracker();
    var k := 0;
    while k < n
      invariant 0 <= k <= n
      invariant t.version == k % U64_MODULUS
    {
      t.Changed();
      k := k + 1;
    }
  }
}
