/** The admin side's vehicle record (src/pages/Admin.tsx, interface Vehicle). */
module Vehicles {

  /** The eleven data columns: the CSV import's required header set and the admin form's fields.
    * An optional field the record lacks is the empty string, which every use of it
    * (`x || ''`, `!x`, `x?.trim()`) treats exactly like an absent one. */
  datatype Listing = Listing(
    merk: string, model: string, tipe: string, warna: string, tahun: string, cc: string,
    transmisi: string, lokasi: string, harga: string, kategori: string, kondisi: string)

  /** A stored record: its key, its data columns and its two timestamps ("" when unset). */
  datatype Vehicle = Vehicle(id: string, listing: Listing, created_at: string, updated_at: string)

  /** The two clock readings the code takes: `Date.now()` and `new Date().toISOString()`. */
  datatype Clock = Clock(millis: nat, iso: string)

  /** The listing whose columns, in header order, are `cells`. */
  function ListingFrom(cells: seq<string>): Listing
    requires |cells| == 11
  {
    Listing(cells[0], cells[1], cells[2], cells[3], cells[4], cells[5], cells[6], cells[7], cells[8], cells[9], cells[10])
  }

  /** The data columns in header order; reading them back gives the listing. */
  function ListingCells(l: Listing): (cells: seq<string>)
    ensures |cells| == 11
    ensures ListingFrom(cells) == l
  {
    [l.merk, l.model, l.tipe, l.warna, l.tahun, l.cc, l.transmisi, l.lokasi, l.harga, l.kategori, l.kondisi]
  }
}
