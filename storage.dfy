/** The browser's `localStorage` as the pages use it: string keys mapped to
    whole values, read with `getItem` and overwritten with `setItem`. JSON
    encoding is not modelled; a key holds the value that was written. */
module Storage {
  import opened Wrappers
  import ProductRecords
  import TeamRecords
  import SalaryRecords

  const ProductsKey := "shippy_products"
  const TeamMembersKey := "shippy_team_members"
  const SalaryKey := "shippy_salary"

  /** What a key can hold: a page's whole collection or the salary record. */
  datatype Stored =
    | ProductList(products: seq<ProductRecords.Product>)
    | MemberList(members: seq<TeamRecords.TeamMember>)
    | SalaryRecord(salary: SalaryRecords.SalaryData)

  class LocalStore {
    var entries: map<string, Stored>

    constructor (initial: map<string, Stored>)
      ensures entries == initial
    {
      entries := initial;
    }

    /** `getItem`: the value under `key`, or nothing when the key is absent. */
    method GetItem(key: string) returns (v: Option<Stored>)
      ensures v.Some? <==> key in entries
      ensures v.Some? ==> v.value == entries[key]
    {
      v := if key in entries then Some(entries[key]) else None;
    }

    /** `setItem`: replace the whole value under `key`; every other key keeps
      its value. The last write wins. */
    method SetItem(key: string, v: Stored)
      modifies this
      ensures entries == old(entries)[key := v]
    {
      entries := entries[key := v];
    }
  }
}
