/**
 * `knx_tp::GroupAddress`: an identifier from the configuration and the
 * packed 16-bit group address it stands for.
 *
 * The string setter and `get_address()` live in a `group_address.cpp`
 * of `knx_tp` that is not part of this model; the TP component takes the
 * text form of an address as a parameter instead (see `KnxTp`).
 */
module GroupAddressTp {
  import opened Bytes
  import opened AddressBits

  class GroupAddress {
    var id: string
    var address: u16

    /** A default-constructed group address: empty id, address 0. */
    constructor ()
      ensures id == "" && address == 0
    {
      id := "";
      address := 0;
    }

    method SetId(id: string)
      modifies this
      ensures this.id == id && address == old(address)
    {
      this.id := id;
    }

    method SetAddress(address: u16)
      modifies this
      ensures this.address == address && id == old(id)
    {
      this.address := address;
    }

    /** `get_main_group()`: bits 15-11, the address divided by 2048. */
    function GetMainGroup(): (r: int)
      reads this
      ensures 0 <= r <= 31 && r * 2048 <= address < (r + 1) * 2048
    {
      MainGroup(address)
    }

    /** `get_middle_group()`: bits 10-8, what is left below bit 11, divided by 256. */
    function GetMiddleGroup(): (r: int)
      reads this
      ensures 0 <= r <= 7 && r * 256 <= address % 2048 < (r + 1) * 256
    {
      MiddleGroup(address)
    }

    /** `get_sub_group()`: bits 7-0; the address minus it is a multiple of 256. */
    function GetSubGroup(): (r: int)
      reads this
      ensures 0 <= r <= 255 && (address - r) % 256 == 0
    {
      SubGroup(address)
    }

    /** The three accessors together determine the stored address. */
    lemma GroupsDetermineAddress()
      ensures GroupPack(GetMainGroup(), GetMiddleGroup(), GetSubGroup()) == address
    {
      PackOfGroupFields(address);
    }
  }
}
