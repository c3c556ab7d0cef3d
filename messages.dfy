/** The chat message shape both model hooks keep their history in. */
module Messages {

  datatype Role = User | Assistant | System

  datatype Message = Message(role: Role, content: string)
}
