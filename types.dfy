/** Shared records of the calculator: the form state, a saved workspace project, and Option. */
module Types {

  datatype Option<+T> = None | Some(value: T)

  /** How amounts are displayed; it never affects the computed total. */
  datatype Currency = Eur | Bgn | Both

  /** The editing form. Numeric inputs are JavaScript numbers, modelled exactly as reals. */
  datatype FormState = FormState(
    projectType: string,
    area: real,
    wallSections: real,
    additionalLength: real,
    objectName: string,
    currencyDisplay: Currency,
    hasCrane: bool,
    hasComplexity: bool,
    complexityPercentage: real,
    isAccelerated: bool,
    includeSupervision: bool)

  /** A project kept in the workspace list; `isArchived` absent is read as false. */
  datatype SavedProject = SavedProject(
    id: string,
    name: string,
    lastModified: int,
    data: FormState,
    isArchived: bool)
}
