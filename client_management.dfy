/**
 * The client management page: the add/edit dialog with its form, the requests its
 * handlers send, and the client statistics it shows.
 */
module ClientManagement {
  import opened Wrappers
  import opened Seqs

  /** A client row as the page reads it. */
  datatype Client = Client(id: string, name: string, email: string, phone: Option<string>,
                           company: string, status: string)

  /** The dialog's form fields; `status` is "active" or "inactive". */
  datatype FormData = FormData(name: string, email: string, phone: string, company: string, status: string)

  /** The blank form: empty fields and status "active". */
  const EmptyForm := FormData("", "", "", "", "active")

  datatype ClientStats = ClientStats(totalClients: nat, activeClients: nat, totalProjects: nat)

  /** A write sent to the `clients` table. */
  datatype Request = Update(id: string, form: FormData) | Insert(form: FormData) | Delete(id: string)

  /** A notification shown to the user. */
  datatype Toast = Toast(title: string, description: string, destructive: bool)

  /** The toast `fetchClientStats` shows when either count query fails. */
  const StatsError := Toast("Error", "Failed to fetch client statistics", true)

  /** The service: whether a write succeeds, and the replies of the two count queries. */
  datatype ClientService = ClientService(accepts: Request -> bool, clients: Reply<Client>, projects: Reply<string>)

  predicate IsActive(c: Client)
  {
    c.status == "active"
  }

  /** The counts: all clients, the active ones and all projects, missing rows counting as none. */
  function CountClients(clients: Option<seq<Client>>, projects: Option<seq<string>>): (r: ClientStats)
    ensures r.activeClients <= r.totalClients
    ensures clients.None? ==> r.totalClients == 0 && r.activeClients == 0
    ensures clients.Some? ==>
      && r.totalClients == |clients.value|
      && r.activeClients == |Filter(clients.value, IsActive)|
    ensures r.totalProjects == if projects.Some? then |projects.value| else 0
  {
    var cs := clients.GetOr([]);
    ClientStats(|cs|, |Filter(cs, IsActive)|, |projects.GetOr([])|)
  }

  /** The form filled in from a client, with a `null` phone shown as an empty field. */
  function EditForm(client: Client): (r: FormData)
    ensures r.name == client.name && r.email == client.email && r.company == client.company
    ensures r.status == client.status
    ensures r.phone == if client.phone.Some? then client.phone.value else ""
  {
    FormData(client.name, client.email, client.phone.GetOr(""), client.company, client.status)
  }

  /** The write a submit sends: an update of the client being edited, or an insert. */
  function SubmitRequest(editing: Option<Client>, form: FormData): (r: Request)
    ensures editing.Some? <==> r.Update?
    ensures editing.Some? ==> r.id == editing.value.id
    ensures !r.Delete? && r.form == form
  {
    if editing.Some? then Update(editing.value.id, form) else Insert(form)
  }

  class ClientManagementPage {
    var clientStats: ClientStats
    var isDialogOpen: bool
    var editingClient: Option<Client>
    var formData: FormData

    /** The page as mounted, before its first statistics fetch. */
    constructor ()
      ensures clientStats == ClientStats(0, 0, 0) && !isDialogOpen
      ensures editingClient == None && formData == EmptyForm
    {
      clientStats := ClientStats(0, 0, 0);
      isDialogOpen := false;
      editingClient := None;
      formData := EmptyForm;
    }

    /** `fetchClientStats`: the counts are replaced only when both queries succeed. */
    method FetchClientStats(service: ClientService) returns (toast: Option<Toast>)
      modifies this`clientStats
      ensures service.clients.Failed? || service.projects.Failed? ==>
        clientStats == old(clientStats) && toast == Some(StatsError)
      ensures service.clients.Rows? && service.projects.Rows? ==>
        clientStats == CountClients(service.clients.rows, service.projects.rows) && toast == None
    {
      var clientData := service.clients;
      if clientData.Failed? {
        return Some(StatsError);
      }
      var projectData := service.projects;
      if projectData.Failed? {
        return Some(StatsError);
      }
      clientStats := CountClients(clientData.rows, projectData.rows);
      toast := None;
    }

    /** The Add Client trigger: a blank form, no client being edited, and the dialog opened. */
    method AddClient()
      modifies this`editingClient, this`formData, this`isDialogOpen
      ensures editingClient == None && formData == EmptyForm && isDialogOpen
    {
      editingClient := None;
      formData := EmptyForm;
      isDialogOpen := true;
    }

    /** The dialog's `onOpenChange`. */
    method SetDialogOpen(open: bool)
      modifies this`isDialogOpen
      ensures isDialogOpen == open
    {
      isDialogOpen := open;
    }

    /** `handleEdit`: the client is being edited, its fields are in the form, and the dialog is open. */
    method HandleEdit(client: Client)
      modifies this`editingClient, this`formData, this`isDialogOpen
      ensures editingClient == Some(client) && formData == EditForm(client) && isDialogOpen
    {
      editingClient := Some(client);
      formData := FormData(client.name, client.email, client.phone.GetOr(""), client.company, client.status);
      isDialogOpen := true;
    }

    /**
     * `handleSubmit`: sends the update or insert. On success the dialog closes, nothing is being
     * edited, the form is blank and the statistics are fetched again, whose failure shows its own
     * toast after the success toast; on failure the dialog, the client being edited and the form
     * stay as they were. `toasts` are the notifications shown, in order.
     */
    method HandleSubmit(service: ClientService) returns (request: Request, toasts: seq<Toast>)
      modifies this`isDialogOpen, this`editingClient, this`formData, this`clientStats
      ensures request == SubmitRequest(old(editingClient), old(formData))
      ensures service.accepts(request) ==>
        && !isDialogOpen && editingClient == None && formData == EmptyForm
        && var saved := Toast("Success", if request.Update? then "Client updated successfully"
                                         else "Client added successfully", false);
        && (service.clients.Rows? && service.projects.Rows? ==>
              clientStats == CountClients(service.clients.rows, service.projects.rows) && toasts == [saved])
        && (service.clients.Failed? || service.projects.Failed? ==>
              clientStats == old(clientStats) && toasts == [saved, StatsError])
      ensures !service.accepts(request) ==>
        && isDialogOpen == old(isDialogOpen) && editingClient == old(editingClient)
        && formData == old(formData) && clientStats == old(clientStats)
        && toasts == [Toast("Error", "Failed to save client", true)]
    {
      if editingClient.Some? {
        request := Update(editingClient.value.id, formData);
        if !service.accepts(request) {
          return request, [Toast("Error", "Failed to save client", true)];
        }
        toasts := [Toast("Success", "Client updated successfully", false)];
      } else {
        request := Insert(formData);
        if !service.accepts(request) {
          return request, [Toast("Error", "Failed to save client", true)];
        }
        toasts := [Toast("Success", "Client added successfully", false)];
      }
      isDialogOpen := false;
      editingClient := None;
      formData := EmptyForm;
      var refreshed := FetchClientStats(service);
      if refreshed.Some? {
        toasts := toasts + [refreshed.value];
      }
    }

    /**
     * `handleDelete`: nothing happens unless the user confirms; then the delete is sent and,
     * when it succeeds, the statistics are fetched again, whose failure shows its own toast after
     * the success toast. The dialog and form are not touched. `toasts` are the notifications
     * shown, in order.
     */
    method HandleDelete(id: string, confirmed: bool, service: ClientService)
      returns (sent: Option<Request>, toasts: seq<Toast>)
      modifies this`clientStats
      ensures !confirmed ==> sent == None && toasts == [] && clientStats == old(clientStats)
      ensures confirmed ==> sent == Some(Delete(id))
      ensures confirmed && service.accepts(Delete(id)) ==>
        && var deleted := Toast("Success", "Client deleted successfully", false);
        && (service.clients.Rows? && service.projects.Rows? ==>
              clientStats == CountClients(service.clients.rows, service.projects.rows) && toasts == [deleted])
        && (service.clients.Failed? || service.projects.Failed? ==>
              clientStats == old(clientStats) && toasts == [deleted, StatsError])
      ensures confirmed && !service.accepts(Delete(id)) ==>
        toasts == [Toast("Error", "Failed to delete client", true)] && clientStats == old(clientStats)
    {
      if !confirmed {
        return None, [];
      }
      sent := Some(Delete(id));
      if !service.accepts(Delete(id)) {
        return sent, [Toast("Error", "Failed to delete client", true)];
      }
      toasts := [Toast("Success", "Client deleted successfully", false)];
      var refreshed := FetchClientStats(service);
      if refreshed.Some? {
        toasts := toasts + [refreshed.value];
      }
    }
  }
}
