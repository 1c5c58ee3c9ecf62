/** The user-facing texts that more than one screen shows. */
module Messages {
  const NetworkUnreachable := "Network error or server is unreachable."
  const NetworkTryLater := "Network error. Please try again later."
  const NetworkCheckConnection := "Network error. Please check your connection."
  const UnexpectedStatus := "Unexpected response status. Please try again."
  const UnexpectedError := "An unexpected error occurred. Please try again."
  const ServerError := "Server encountered an error. Please try again later."
  const InvalidRequest := "Invalid request. Please try again."
  const UnexpectedDataFormat := "Unexpected data format received from server."
  const InvalidUserId := "Invalid user ID provided. Please try again."
  const NoPetsFound := "No pets found for the specified user ID."
  const FillInAllFields := "Please fill in all fields."
  const FillOutRequiredFields := "Please fill out all required fields."
  const LoginFailed := "Login failed. Please try again."
  const InvalidCredentials := "Invalid email or password."
  const RegistrationFailed := "Registration failed. Please try again."
  const UserAlreadyExists := "User already exists."
  const BadPetRequest := "Bad request. Please check the pet details."
  const Unauthorized := "Unauthorized access. Please log in."
  const ServerErrorShort := "Server error. Please try again later."
  const FailedToAddPet := "Failed to add pet. Please try again."
}
