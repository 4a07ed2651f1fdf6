/** Types shared by the whole model. */
module Prelude {

  type Byte = x: int | 0 <= x < 256

  datatype Option<+T> = None | Some(value: T)

  datatype Result<+T> = Err | Ok(value: T)

  /** A GTID: source uuid, optional tag and transaction number. */
  datatype Gtid = Gtid(uuid: string, tag: string, gno: nat)

  /** The four bytes every binlog file starts with. */
  const MAGIC: seq<Byte> := [0xFE, 0x62, 0x69, 0x6E]
  const MAGIC_OFFSET: nat := 4

  datatype ReplicationMode = Position | GtidBased

  ghost predicate Distinct<T(!new)>(s: seq<T>) {
    forall i, j :: 0 <= i < j < |s| ==> s[i] != s[j]
  }
}
