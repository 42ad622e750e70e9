/** Where the bytes of the device live. Slave k keeps the primary copy of bytes k*S .. k*S+S-1 in
    the lower half of its file; the upper half is for the backup of the slave before it. */
module Address {
  import opened Data

  /** calc_slave_index */
  function SlaveIndex(offset: nat, slaveSize: nat): nat
    requires slaveSize > 0
  {
    offset / slaveSize
  }

  function LocalOffset(offset: nat, slaveSize: nat): (q: nat)
    requires slaveSize > 0
    ensures q < slaveSize
  {
    offset % slaveSize
  }

  /** get_next_slave_index */
  function NextSlave(index: nat, slaves: nat): nat {
    if index + 1 >= slaves then 0 else index + 1
  }

  /** The device byte kept at q of slave k. */
  function Absolute(k: nat, q: nat, slaveSize: nat): nat {
    k * slaveSize + q
  }

  lemma Gap(low: nat, high: nat, size: nat)
    requires low < high
    ensures low * size + size <= high * size
  {
    var more := high - low - 1;
    assert high * size == low * size + size + more * size by {
      assert high == low + 1 + more;
    }
  }

  lemma SamePlace(a: nat, r: nat, b: nat, s: nat, size: nat)
    requires r < size && s < size && a * size + r == b * size + s
    ensures a == b && r == s
  {
    if a < b {
      Gap(a, b, size);
    } else if b < a {
      Gap(b, a, size);
    }
  }

  lemma Locate(k: nat, q: nat, slaveSize: nat)
    requires q < slaveSize
    ensures SlaveIndex(Absolute(k, q, slaveSize), slaveSize) == k
    ensures LocalOffset(Absolute(k, q, slaveSize), slaveSize) == q
  {
    var p := Absolute(k, q, slaveSize);
    Recompose(p, slaveSize);
    SamePlace(SlaveIndex(p, slaveSize), LocalOffset(p, slaveSize), k, q, slaveSize);
  }

  lemma Recompose(offset: nat, slaveSize: nat)
    requires slaveSize > 0
    ensures Absolute(SlaveIndex(offset, slaveSize), LocalOffset(offset, slaveSize), slaveSize) == offset
  {
  }

  lemma IndexBelow(offset: nat, slaveSize: nat, slaves: nat)
    requires slaveSize > 0
    ensures SlaveIndex(offset, slaveSize) < slaves <==> offset < slaves * slaveSize
  {
    var index := SlaveIndex(offset, slaveSize);
    Recompose(offset, slaveSize);
    if index < slaves {
      Gap(index, slaves, slaveSize);
    } else if index > slaves {
      Gap(slaves, index, slaveSize);
    }
  }

  /** The primary map is a bijection between the device and slaves x lower halves: it lands there,
      Absolute undoes it, and it undoes Absolute. */
  lemma PrimaryBijection(offset: nat, k: nat, q: nat, slaveSize: nat, slaves: nat)
    requires slaveSize > 0 && offset < slaves * slaveSize
    requires k < slaves && q < slaveSize
    ensures SlaveIndex(offset, slaveSize) < slaves && LocalOffset(offset, slaveSize) < slaveSize
    ensures Absolute(SlaveIndex(offset, slaveSize), LocalOffset(offset, slaveSize), slaveSize) == offset
    ensures Absolute(k, q, slaveSize) < slaves * slaveSize
    ensures SlaveIndex(Absolute(k, q, slaveSize), slaveSize) == k
    ensures LocalOffset(Absolute(k, q, slaveSize), slaveSize) == q
  {
    IndexBelow(offset, slaveSize, slaves);
    Recompose(offset, slaveSize);
    Locate(k, q, slaveSize);
    IndexBelow(Absolute(k, q, slaveSize), slaveSize, slaves);
  }

  function BackupIndex(offset: nat, slaveSize: nat, slaves: nat): nat
    requires slaveSize > 0
  {
    NextSlave(SlaveIndex(offset, slaveSize), slaves)
  }

  function BackupOffset(offset: nat, slaveSize: nat): nat
    requires slaveSize > 0
  {
    LocalOffset(offset, slaveSize) + slaveSize
  }

  /** What send_to_driver serializes for the primary slave, and send_backup, without the payload,
      for the next one. */
  function PrimaryData(d: DriverData, slaveSize: nat): DriverData
    requires slaveSize > 0
  {
    d.(offset := LocalOffset(d.offset, slaveSize))
  }

  function BackupData(d: DriverData, slaveSize: nat): DriverData
    requires slaveSize > 0
  {
    d.(offset := BackupOffset(d.offset, slaveSize), buffer := [])
  }

  /** The device byte whose backup is kept at q of slave k. */
  function BackupOf(k: nat, q: nat, slaveSize: nat, slaves: nat): nat
    requires k < slaves && q >= slaveSize
  {
    Absolute(if k == 0 then slaves - 1 else k - 1, q - slaveSize, slaveSize)
  }

  /** The backup map is a bijection between the device and slaves x upper halves, so it never
      meets a primary byte; the backup sits on another slave exactly when there are two. */
  lemma BackupBijection(offset: nat, k: nat, q: nat, slaveSize: nat, slaves: nat)
    requires slaveSize > 0 && offset < slaves * slaveSize
    requires k < slaves && slaveSize <= q < 2 * slaveSize
    ensures BackupIndex(offset, slaveSize, slaves) < slaves
    ensures slaveSize <= BackupOffset(offset, slaveSize) < 2 * slaveSize
    ensures BackupOf(BackupIndex(offset, slaveSize, slaves), BackupOffset(offset, slaveSize), slaveSize,
          slaves) == offset
    ensures BackupOf(k, q, slaveSize, slaves) < slaves * slaveSize
    ensures BackupIndex(BackupOf(k, q, slaveSize, slaves), slaveSize, slaves) == k
    ensures BackupOffset(BackupOf(k, q, slaveSize, slaves), slaveSize) == q
    ensures BackupIndex(offset, slaveSize, slaves) != SlaveIndex(offset, slaveSize) <==> slaves >= 2
  {
    var owner := if k == 0 then slaves - 1 else k - 1;
    PrimaryBijection(offset, owner, q - slaveSize, slaveSize, slaves);
  }

  /** A range that stays inside one slave-sized extent stays contiguous on its slave. */
  lemma Contiguous(offset: nat, i: nat, slaveSize: nat)
    requires slaveSize > 0 && LocalOffset(offset, slaveSize) + i < slaveSize
    ensures SlaveIndex(offset + i, slaveSize) == SlaveIndex(offset, slaveSize)
    ensures LocalOffset(offset + i, slaveSize) == LocalOffset(offset, slaveSize) + i
  {
    Recompose(offset, slaveSize);
    Locate(SlaveIndex(offset, slaveSize), LocalOffset(offset, slaveSize) + i, slaveSize);
  }

  /** Such a range covers device byte k*S+q exactly when it goes to slave k and covers q there. */
  lemma CoversLocally(offset: nat, len: nat, k: nat, q: nat, slaveSize: nat)
    requires q < slaveSize && LocalOffset(offset, slaveSize) + len <= slaveSize
    ensures offset <= Absolute(k, q, slaveSize) < offset + len
       <==> k == SlaveIndex(offset, slaveSize)
            && LocalOffset(offset, slaveSize) <= q < LocalOffset(offset, slaveSize) + len
    ensures k == SlaveIndex(offset, slaveSize) ==>
              Absolute(k, q, slaveSize) - offset == q - LocalOffset(offset, slaveSize)
  {
    Recompose(offset, slaveSize);
    if offset <= Absolute(k, q, slaveSize) < offset + len {
      Contiguous(offset, Absolute(k, q, slaveSize) - offset, slaveSize);
      Locate(k, q, slaveSize);
    }
  }
}
