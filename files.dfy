/**
 * Directory entries as the session engine sees them (src/files.rs and the
 * `Item` values built in src/cli.rs). Entries are immutable values: every
 * directory listing builds fresh ones.
 */
module Files {
  import opened Text

  /** A byte string naming a file-system location. */
  type Path = seq<Byte>

  /** Exactly one kind per entry; only a link carries a target. */
  datatype ItemType =
    | File(size: nat)
    | Dir
    | Link(target: seq<Byte>)

  /**
   * The metadata shown beside a name: the read-only flag and the three
   * timestamps in seconds. How the host produces them is not modelled.
   */
  datatype Meta = Meta(readonly: bool, created: nat, lastAccessed: nat, lastWritten: nat)

  datatype Item = Item(ty: ItemType, name: seq<Byte>, meta: Meta)

  /** The names of the two synthetic entries. */
  const DOT: seq<Byte> := ['.' as int]
  const DOTDOT: seq<Byte> := ['.' as int, '.' as int]
}
