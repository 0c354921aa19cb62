/**
 * Wire-level vocabulary of the AMD Wraith Prism lighting controller: bytes, the fixed
 * command and reply sizes, the firmware's channel and mode identifiers, the speed tables,
 * and the two primitives every command frame is built from (a memset buffer and a run of
 * bytes stored at an offset).
 */
module Protocol {

  datatype Option<T> = None | Some(value: T)

  /** An unsigned char. */
  type byte = b: int | 0 <= b < 256

  /** A buffer handed to hid_write; every frame the model builds is CMD_SIZE long. */
  type Frame = seq<byte>

  const CMD_SIZE: nat := 65
  const REPLY_SIZE: nat := 64

  // Animation modes run by the firmware.
  const MODE_STATIC: byte := 0x01
  const MODE_COLOUR_CYCLE: byte := 0x02
  const MODE_BREATH: byte := 0x03
  const MODE_RING_RAINBOW: byte := 0x05
  const MODE_RING_CHASE: byte := 0xC3
  const MODE_RING_SWIRL: byte := 0x4A
  const MODE_RING_DEFAULT: byte := 0xFF

  // LED channels: the logo, the fan, and the nine ring-animation channels.
  const CHANNEL_OFF: byte := 0xFE
  const CHANNEL_LOGO: byte := 0x05
  const CHANNEL_FAN: byte := 0x06
  const CHANNEL_RING_STATIC: byte := 0x00
  const CHANNEL_RING_BREATH: byte := 0x01
  const CHANNEL_RING_COLOUR_CYCLE: byte := 0x02
  const CHANNEL_RING_RAINBOW: byte := 0x07
  const CHANNEL_RING_BOUNCE: byte := 0x08
  const CHANNEL_RING_CHASE: byte := 0x09
  const CHANNEL_RING_SWIRL: byte := 0x0A
  const CHANNEL_RING_MORSE: byte := 0x0B

  /** The speed byte of a static effect, whatever speed level was asked for. */
  const STATIC_SPEED: byte := 0xFF

  // Speed bytes for speed levels 1..5, per animation.
  const BREATH_SPEED: seq<byte> := [0x3C, 0x37, 0x31, 0x2C, 0x26]
  const CYCLE_SPEED: seq<byte> := [0x96, 0x8C, 0x80, 0x6E, 0x68]
  const RAINBOW_SPEED: seq<byte> := [0x72, 0x68, 0x64, 0x62, 0x61]
  const CHASE_SPEED: seq<byte> := [0x77, 0x74, 0x6E, 0x6B, 0x67]
  const SWIRL_SPEED: seq<byte> := [0x77, 0x74, 0x6E, 0x6B, 0x67]

  /** A command buffer right after memset(buf, fill, CMD_SIZE). */
  function Blank(fill: byte): (f: Frame)
    ensures |f| == CMD_SIZE
    ensures forall k :: 0 <= k < CMD_SIZE ==> f[k] == fill
  {
    seq(CMD_SIZE, _ => fill)
  }

  /** f after bytes[0], bytes[1], ... are stored at offsets at, at + 1, ...; nothing else moves. */
  function Put(f: Frame, at: nat, bytes: seq<byte>): (g: Frame)
    requires at + |bytes| <= |f|
    ensures |g| == |f|
    ensures forall k :: 0 <= k < at ==> g[k] == f[k]
    ensures forall k :: 0 <= k < |bytes| ==> g[at + k] == bytes[k]
    ensures forall k :: at + |bytes| <= k < |f| ==> g[k] == f[k]
  {
    seq(|f|, k requires 0 <= k < |f| => if at <= k < at + |bytes| then bytes[k - at] else f[k])
  }
}
