/** The enumerations of src/components/types.ts. */
module Types {

  /** Placement mode of the canvas (`ICMode`). */
  datatype ICMode = TextMode | IconMode

  /** The icons an icon element can show (`IconName`). */
  datatype IconName = Community | Support | Documentation | Tooling | Ecosystem
}
