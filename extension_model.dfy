/** The `Extension` table (models/extension.js): a directory entry maps a short dial code to
    a destination number; both columns are not-null. */
module ExtensionModel {

  /** A stored directory entry; `id` is the auto-incremented key the ORM adds. */
  datatype Extension = Extension(id: int, number: string, extension: string)
}
