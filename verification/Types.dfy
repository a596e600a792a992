/** Values that travel between the notification hubs, and the checks on them. */
module Types {

  datatype Option<+T> = None | Some(value: T)

  datatype Result<+T> = Ok(value: T) | Err(error: Error)

  datatype Error =
    | InvalidOrigin
    | InvalidInstance
    | ZeroSequence
    | Impersonation
    | InvalidContent
    | StoreFull
    | SequenceExhausted
    | InvalidLocalOrigin
    | OutboxFull
    | PersistFailed
    | OwnerDiffers
    | OwnerUnconfirmed
    | OutputQueueFull
    | InvalidEpoch
    | AuthorityReset
    | NestedSnapshot
    | OutsideSnapshot
    | SnapshotCapacity
    | EndWithoutStart
    | WrongAuthority
    | OwnerLocked
    | LimitsExceeded
    | PhoneSnapshotFull
    | PhoneIdentitiesFull
    | PhoneImportsFull
    | PhoneSnapshotIncomplete

  const MAX_RECORDS: nat := 4096
  const MAX_PENDING: nat := 1024
  const MAX_STORE_BYTES: nat := 32 * 1024 * 1024
  const MAX_ICON_BYTES: nat := 24 * 1024
  const MAX_U64: nat := 0xffff_ffff_ffff_ffff

  newtype byte = x: int | 0 <= x < 256

  datatype Key = Key(origin: string, instance: string)

  datatype Content = Content(
    appName: string,
    title: string,
    body: seq<byte>,
    icon: string,
    iconPng: Option<seq<byte>>,
    postedMs: nat,
    urgency: nat)

  datatype Record = Record(key: Key, sourceSequence: nat, content: Option<Content>)

  datatype Operation = Operation(sequence: nat, key: Key, content: Option<Content>)

  predicate IsHexDigit(c: char) {
    '0' <= c <= '9' || 'a' <= c <= 'f' || 'A' <= c <= 'F'
  }

  predicate IsAlphanumeric(c: char) {
    '0' <= c <= '9' || 'a' <= c <= 'z' || 'A' <= c <= 'Z'
  }

  // Four groups of eight hexadecimal digits separated by colons. Every accepted
  // character is ASCII, so the byte length is the character count.
  predicate ValidOrigin(origin: string) {
    && |origin| == 35
    && forall i :: 0 <= i < 35 ==> if i % 9 == 8 then origin[i] == ':' else IsHexDigit(origin[i])
  }

  predicate ValidInstance(instance: string) {
    && 0 < |instance| <= 160
    && forall i :: 0 <= i < |instance| ==> IsAlphanumeric(instance[i]) || instance[i] in "-_/"
  }

  predicate ValidKey(key: Key) {
    ValidOrigin(key.origin) && ValidInstance(key.instance)
  }

  predicate ValidContent(content: Content) {
    && |content.appName| <= 64
    && |content.title| <= 256
    && |content.body| <= 4096
    && |content.icon| <= 128
    && (forall i :: 0 <= i < |content.icon| ==>
          IsAlphanumeric(content.icon[i]) || content.icon[i] in "-_.")
    && content.urgency <= 2
    && (content.iconPng.Some? ==> |content.iconPng.value| <= MAX_ICON_BYTES)
  }

  predicate ValidEpoch(epoch: string) {
    |epoch| == 32 && forall i :: 0 <= i < 32 ==> IsHexDigit(epoch[i])
  }
}
