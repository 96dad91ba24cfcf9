/** Success/failure wrappers shared by the models: the source's `absl::StatusOr` and `std::optional`. */
module Results {

  datatype Option<+T> = None | Some(value: T)

  datatype Result<+T> = Success(value: T) | Failure(error: string)
}
