/** The keys the setup menu reacts to, and how the menu's input loop decodes them
    from the bytes the terminal delivers. */
module KeyInput {
  import opened ConfigStore

  /** One decoded key. Right acts like Activate (space or enter). CtrlAltDel is not a
      byte: it stands for the USB layer raising the hot-key flag between two polls. */
  datatype Key = Up | Down | Left | Right | Activate | EscEsc | Other | CtrlAltDel

  const ESC: uint8 := 0x1b
  const SPACE: uint8 := 0x20
  const CR: uint8 := 13
  const BRACKET: uint8 := 0x5b  // '['
  const CURSOR_UP: uint8 := 0x41  // 'A'
  const CURSOR_DOWN: uint8 := 0x42  // 'B'
  const CURSOR_RIGHT: uint8 := 0x43  // 'C'
  const CURSOR_LEFT: uint8 := 0x44  // 'D'

  datatype Option<T> = None | Some(value: T)

  /** A key and the number of bytes it was read from. */
  datatype Decoded = Decoded(key: Key, length: nat)

  /** The key at the start of `bytes`; None while only the start of an escape
      sequence has arrived (the menu then keeps waiting for the next byte). */
  function NextKey(bytes: seq<uint8>): (r: Option<Decoded>)
    ensures r.Some? ==> 1 <= r.value.length <= |bytes| && r.value.key != CtrlAltDel
    ensures r.None? <==> (bytes == [] || bytes == [ESC] || bytes == [ESC, BRACKET])
  {
    if |bytes| == 0 then None
    else if bytes[0] == ESC then
      if |bytes| == 1 then None
      else if bytes[1] == ESC then Some(Decoded(EscEsc, 2))
      else if bytes[1] != BRACKET then Some(Decoded(Other, 2))
      else if |bytes| == 2 then None
      else
        var key :=
          if bytes[2] == CURSOR_UP then Up
          else if bytes[2] == CURSOR_DOWN then Down
          else if bytes[2] == CURSOR_RIGHT then Right
          else if bytes[2] == CURSOR_LEFT then Left
          else Other;
        Some(Decoded(key, 3))
    else if bytes[0] == SPACE || bytes[0] == CR then Some(Decoded(Activate, 1))
    else Some(Decoded(Other, 1))
  }

  /** Every complete key in `bytes`, in order; a trailing incomplete escape sequence is still pending. */
  function Decode(bytes: seq<uint8>): (keys: seq<Key>)
    ensures |keys| <= |bytes|
    ensures CtrlAltDel !in keys
    decreases |bytes|
  {
    match NextKey(bytes)
    case None => []
    case Some(d) => [d.key] + Decode(bytes[d.length..])
  }

  /** The bytes a keyboard sends for a key (one representative for Other). */
  function Encode(k: Key): seq<uint8>
    requires k != CtrlAltDel
  {
    match k
    case Up => [ESC, BRACKET, CURSOR_UP]
    case Down => [ESC, BRACKET, CURSOR_DOWN]
    case Right => [ESC, BRACKET, CURSOR_RIGHT]
    case Left => [ESC, BRACKET, CURSOR_LEFT]
    case Activate => [SPACE]
    case EscEsc => [ESC, ESC]
    case Other => ['x' as uint8]
  }

  function EncodeAll(keys: seq<Key>): seq<uint8>
    requires CtrlAltDel !in keys
  {
    if keys == [] then [] else Encode(keys[0]) + EncodeAll(keys[1..])
  }

  /** A key's bytes decode to that key whatever follows them. */
  lemma NextKeyEncode(k: Key, rest: seq<uint8>)
    requires k != CtrlAltDel
    ensures NextKey(Encode(k) + rest) == Some(Decoded(k, |Encode(k)|))
  {
  }

  /** Enter is a second activation key: a carriage return decodes as one byte of Activate,
      like a space, and decoding goes on with the bytes after it. */
  lemma {:induction false} EnterIsActivate(rest: seq<uint8>)
    ensures NextKey([CR] + rest) == Some(Decoded(Activate, 1))
    ensures Decode([CR] + rest) == [Activate] + Decode(rest)
  {
    assert ([CR] + rest)[1..] == rest;
  }

  /** Decoding the bytes of a key sequence gives back that key sequence. */
  lemma {:induction false} DecodeEncodeAll(keys: seq<Key>)
    requires CtrlAltDel !in keys
    ensures Decode(EncodeAll(keys)) == keys
  {
    if keys != [] {
      var bytes := EncodeAll(keys);
      NextKeyEncode(keys[0], EncodeAll(keys[1..]));
      assert bytes[|Encode(keys[0])|..] == EncodeAll(keys[1..]);
      DecodeEncodeAll(keys[1..]);
    }
  }
}
