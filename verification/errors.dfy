/** The error tags of src/errors.rs. They carry no data and no behaviour. */
module Errors {

  datatype LexingError = UnterminatedStringLiteralError | UnexpectedEndOfFileError

  datatype ParsingError = UnexpectedEndOfFileError

  datatype BindingError = CannotRedeclareError
}
