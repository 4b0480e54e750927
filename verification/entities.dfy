/** The two kinds of record the application keeps, and the records it starts with. */
module Entities {
  import opened Records

  /** Task and client ids are strings (the source stringifies a timestamp). */
  type Id = string

  /** A task without its id: what the new-task form produces. */
  datatype TaskFields = TaskFields(title: string, notes: string)

  /** A client without its id: what the gallery's add-form produces. */
  datatype ClientFields = ClientFields(name: string, image: string, email: string, project: string)

  type Task = Entry<Id, TaskFields>
  type Client = Entry<Id, ClientFields>

  const PlaceholderImage: string := "https://via.placeholder.com/150"

  /** The task list a fresh page starts with. */
  const InitialTasks: seq<Task> := [
    Entry("1", TaskFields("Buy groceries", "Milk, eggs, bread")),
    Entry("2", TaskFields("Finish report", "Due Monday"))
  ]

  /** The client list a fresh page starts with. */
  const InitialClients: seq<Client> := [
    Entry("1", ClientFields("John Doe", PlaceholderImage, "john@example.com", "Website Redesign")),
    Entry("2", ClientFields("Jane Smith", PlaceholderImage, "jane@example.com", "Mobile App"))
  ]

  /** The empty draft the gallery's add-form starts from and is reset to. */
  const EmptyClientDraft: ClientFields := ClientFields("", PlaceholderImage, "", "")
}
