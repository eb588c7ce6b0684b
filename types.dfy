/**
 * The stored records the core reads (lib/data/types.ts), with timestamps as
 * milliseconds since the epoch. `completed`, `createdBy` and `managers` are
 * read by the core (app/admin/series/page.tsx, lib/auth/series.ts) though the
 * record type does not declare them; they are fields here.
 */
module Types {
  import opened Wrappers

  /** `Series` */
  datatype Series = Series(
    id: string,
    name: string,
    startDate: int,
    endDate: int,
    isActive: bool,
    completed: bool,
    createdAt: int,
    createdBy: string,
    managers: Option<seq<string>>)
}
