/**
 * The outcomes the dashboard reports to the user. Each failure stands for the
 * message box `CRMDashboard` raises; nothing here is presentation.
 */
module Outcomes {

  datatype Option<+T> = None | Some(value: T)

  datatype Result<+T, +E> = Ok(value: T) | Err(error: E)

  datatype Failure =
    | MissingField(field: string)          // warning "<Field> is required!"
    | InvalidEmail                         // warning "Invalid email format!"
    | MissingColumns(columns: seq<string>) // warning "Missing required columns: ..."
    | NoData                               // warning "No ... data to export!"
    | FormError                            // critical "Error adding customer: ..." (a form field is absent)
    | ImportError                          // critical "Error importing file: ..." (the file could not be read)
    | LoadError                            // warning "Error loading data: ..."

  /** What an operation on the store did. */
  datatype Status =
    | Done                  // the operation completed (and, for a change, the store was saved)
    | Cancelled             // the file dialog was closed without a choice: nothing happens
    | Failed(reason: Failure)
}
