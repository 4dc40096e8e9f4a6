/**
 * The 16-bit layouts of KNX addresses: a group address packs
 * main/middle/sub into 5/3/8 bits, a physical (individual) address packs
 * area/line/device into 4/4/8 bits.
 */
module AddressBits {
  import opened Bytes

  /**
   * `((main & 0x1F) << 11) | ((middle & 0x07) << 8) | (sub & 0xFF)`; the
   * masks are remainders, so the three fields never overlap and `|` is `+`.
   */
  function GroupPack(main: int, middle: int, sub: int): u16
  {
    (main % 32) * 2048 + (middle % 8) * 256 + sub % 256
  }

  /** `(x >> 11) & 0x1F` */
  function MainGroup(x: u16): (r: int)
    ensures 0 <= r <= 31
  {
    (x / 2048) % 32
  }

  /** `(x >> 8) & 0x07` */
  function MiddleGroup(x: u16): (r: int)
    ensures 0 <= r <= 7
  {
    (x / 256) % 8
  }

  /** `x & 0xFF` */
  function SubGroup(x: u16): (r: int)
    ensures 0 <= r <= 255
  {
    x % 256
  }

  /** Packing in-range fields and reading them back gives the fields. */
  lemma GroupFieldsOfPack(main: int, middle: int, sub: int)
    requires 0 <= main <= 31 && 0 <= middle <= 7 && 0 <= sub <= 255
    ensures MainGroup(GroupPack(main, middle, sub)) == main
    ensures MiddleGroup(GroupPack(main, middle, sub)) == middle
    ensures SubGroup(GroupPack(main, middle, sub)) == sub
  {
    var p := main * 2048 + middle * 256 + sub;
    assert GroupPack(main, middle, sub) == p;
    assert p / 2048 == main;
    assert p / 256 == main * 8 + middle;
    assert (main * 8 + middle) % 8 == middle;
    assert p % 256 == sub;
  }

  /** Every 16-bit value is the packing of its own three fields. */
  lemma PackOfGroupFields(x: u16)
    ensures GroupPack(MainGroup(x), MiddleGroup(x), SubGroup(x)) == x
  {
    var a, m := x / 2048, x % 2048;
    var b, c := m / 256, m % 256;
    assert x == a * 2048 + b * 256 + c;
    assert x / 256 == a * 8 + b;
    assert (a * 8 + b) % 8 == b;
    assert x % 256 == c;
  }

  /** `(area << 12) | (line << 8) | device` of range-checked fields. */
  function PhysicalPack(area: int, line: int, device: int): (r: u16)
    requires 0 <= area <= 15 && 0 <= line <= 15 && 0 <= device <= 255
    ensures r / 4096 == area && (r / 256) % 16 == line && r % 256 == device
  {
    var low := line * 256 + device;
    assert 0 <= low < 4096;
    assert low / 256 == line && low % 256 == device;
    var r := area * 4096 + low;
    assert r / 256 == area * 16 + line && (area * 16 + line) % 16 == line;
    r
  }
}
