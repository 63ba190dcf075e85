/** The realtime hub: five dictionaries of sockets that together say who is
    connected where.  A ghost map of clients is the simple form they refine. */
module RealtimeHub {
  import opened Common

  type Socket = nat
  type Workspace = nat
  type DeviceId = nat
  type UserId = nat

  datatype Client = Client(workspace: Workspace, device: Option<DeviceId>, user: Option<UserId>, role: Option<string>)

  type Clients = map<Socket, Client>

  type Index = map<nat, set<Socket>>

  // --- the simple form --------------------------------------------------------------

  function InWorkspace(clients: Clients, workspace: Workspace): set<Socket> {
    set s | s in clients && clients[s].workspace == workspace
  }

  function OnDevice(clients: Clients, device: DeviceId): set<Socket> {
    set s | s in clients && clients[s].device == Some(device)
  }

  // Who may see the details of an actor's checkout session.
  function SessionAudience(clients: Clients, workspace: Workspace, actor: UserId): set<Socket> {
    set s | s in clients && clients[s].workspace == workspace && (clients[s].user == Some(actor) || clients[s].role == Some("owner"))
  }

  // A disconnect names the workspace; another one than the socket's only
  // forgets who the socket belongs to.
  function Disconnected(clients: Clients, workspace: Workspace, socket: Socket): Clients {
    if InWorkspace(clients, workspace) == {} || socket !in clients then clients
    else if clients[socket].workspace == workspace then clients - {socket}
    else clients[socket := Client(clients[socket].workspace, None, None, None)]
  }

  // --- the dictionaries ---------------------------------------------------------------

  ghost predicate WorkspaceIndex(index: Index, clients: Clients) {
    && (forall k | k in index :: index[k] != {} && index[k] == InWorkspace(clients, k))
    && (forall s | s in clients :: clients[s].workspace in index)
  }

  ghost predicate DeviceIndex(index: Index, clients: Clients) {
    && (forall k | k in index :: index[k] != {} && index[k] == OnDevice(clients, k))
    && (forall s | s in clients && clients[s].device.Some? :: clients[s].device.value in index)
  }

  function DevicesOf(clients: Clients): map<Socket, DeviceId> {
    map s | s in clients && clients[s].device.Some? :: clients[s].device.value
  }

  function UsersOf(clients: Clients): map<Socket, UserId> {
    map s | s in clients && clients[s].user.Some? :: clients[s].user.value
  }

  function RolesOf(clients: Clients): map<Socket, string> {
    map s | s in clients && clients[s].role.Some? :: clients[s].role.value
  }

  function Add(index: Index, key: nat, socket: Socket): Index {
    index[key := (if key in index then index[key] else {}) + {socket}]
  }

  // The socket leaves the set, and an empty set leaves the index.
  function Discard(index: Index, key: nat, socket: Socket): Index {
    if key !in index then index
    else if index[key] - {socket} == {} then index - {key}
    else index[key := index[key] - {socket}]
  }

  // The five dictionaries say who is connected where.
  ghost predicate HubInv(connections: Index, deviceConnections: Index, devices: map<Socket, DeviceId>, users: map<Socket, UserId>,
                         roles: map<Socket, string>, clients: Clients)
  {
    && WorkspaceIndex(connections, clients) && DeviceIndex(deviceConnections, clients)
    && devices == DevicesOf(clients) && users == UsersOf(clients) && roles == RolesOf(clients)
  }

  class Hub {
    var connections: Index
    var deviceConnections: Index
    var connectionDevices: map<Socket, DeviceId>
    var connectionUsers: map<Socket, UserId>
    var connectionRoles: map<Socket, string>
    ghost var clients: Clients

    ghost predicate Valid()
      reads this
    {
      HubInv(connections, deviceConnections, connectionDevices, connectionUsers, connectionRoles, clients)
    }

    constructor ()
      ensures Valid() && clients == map[]
    {
      connections, deviceConnections := map[], map[];
      connectionDevices, connectionUsers, connectionRoles := map[], map[], map[];
      clients := map[];
    }

    method Connect(workspace: Workspace, socket: Socket, device: Option<DeviceId>, user: Option<UserId>, role: Option<string>)
      requires Valid() && socket !in clients
      modifies this
      ensures Valid() && clients == old(clients)[socket := Client(workspace, device, user, role)]
    {
      ConnectKeeps(connections, deviceConnections, connectionDevices, connectionUsers, connectionRoles, clients, socket,
                   Client(workspace, device, user, role));
      connections := Add(connections, workspace, socket);
      Remember(socket, device, user, role);
      clients := clients[socket := Client(workspace, device, user, role)];
    }

    // Who the socket belongs to, as far as it is known.
    method Remember(socket: Socket, device: Option<DeviceId>, user: Option<UserId>, role: Option<string>)
      modifies this`deviceConnections, this`connectionDevices, this`connectionUsers, this`connectionRoles
      ensures deviceConnections == if device.Some? then Add(old(deviceConnections), device.value, socket) else old(deviceConnections)
      ensures connectionDevices == if device.Some? then old(connectionDevices)[socket := device.value] else old(connectionDevices)
      ensures connectionUsers == if user.Some? then old(connectionUsers)[socket := user.value] else old(connectionUsers)
      ensures connectionRoles == if role.Some? then old(connectionRoles)[socket := role.value] else old(connectionRoles)
    {
      if device.Some? {
        deviceConnections := Add(deviceConnections, device.value, socket);
        connectionDevices := connectionDevices[socket := device.value];
      }
      if user.Some? {
        connectionUsers := connectionUsers[socket := user.value];
      }
      if role.Some? {
        connectionRoles := connectionRoles[socket := role.value];
      }
    }

    method Forget(socket: Socket)
      modifies this`deviceConnections, this`connectionDevices, this`connectionUsers, this`connectionRoles
      ensures deviceConnections ==
                if socket in old(connectionDevices) then Discard(old(deviceConnections), old(connectionDevices)[socket], socket)
                else old(deviceConnections)
      ensures connectionDevices == old(connectionDevices) - {socket}
      ensures connectionUsers == old(connectionUsers) - {socket} && connectionRoles == old(connectionRoles) - {socket}
    {
      var device := if socket in connectionDevices then Some(connectionDevices[socket]) else None;
      connectionDevices, connectionUsers, connectionRoles := connectionDevices - {socket}, connectionUsers - {socket}, connectionRoles - {socket};
      if device.Some? {
        deviceConnections := Discard(deviceConnections, device.value, socket);
      }
    }

    method Disconnect(workspace: Workspace, socket: Socket)
      requires Valid()
      modifies this
      ensures Valid() && clients == Disconnected(old(clients), workspace, socket)
    {
      if workspace !in connections {
        return;
      }
      DisconnectKeeps(connections, deviceConnections, connectionDevices, connectionUsers, connectionRoles, clients, workspace, socket);
      ghost var after := Disconnected(clients, workspace, socket);
      connections := Discard(connections, workspace, socket);
      Forget(socket);
      clients := after;
    }

    // Disconnects the sockets that could not be sent to.
    method DropStale(workspace: Workspace, stale: set<Socket>)
      requires Valid() && stale <= InWorkspace(clients, workspace)
      modifies this
      ensures Valid() && clients == old(clients) - stale
    {
      var rest := stale;
      while rest != {}
        invariant Valid() && rest <= stale && rest <= InWorkspace(clients, workspace)
        invariant clients == old(clients) - (stale - rest)
      {
        var socket :| socket in rest;
        assert socket in InWorkspace(clients, workspace);
        Disconnect(workspace, socket);
        rest := rest - {socket};
      }
    }

    // broken are the sockets that the transport cannot write to.
    method Publish(workspace: Workspace, broken: set<Socket>) returns (delivered: set<Socket>)
      requires Valid()
      modifies this
      ensures Valid() && delivered == InWorkspace(old(clients), workspace) - broken
      ensures clients == old(clients) - (InWorkspace(old(clients), workspace) * broken)
    {
      var sockets := if workspace in connections then connections[workspace] else {};
      assert sockets == InWorkspace(clients, workspace);
      delivered := sockets - broken;
      DropStale(workspace, sockets * broken);
    }

    method PublishCheckoutSession(workspace: Workspace, actor: UserId, broken: set<Socket>) returns (delivered: set<Socket>)
      requires Valid()
      modifies this
      ensures Valid() && delivered == SessionAudience(old(clients), workspace, actor) - broken
      ensures clients == old(clients) - (SessionAudience(old(clients), workspace, actor) * broken)
    {
      var sockets := if workspace in connections then connections[workspace] else {};
      assert sockets == InWorkspace(clients, workspace);
      var recipients := {};
      var rest := sockets;
      while rest != {}
        invariant rest <= sockets
        invariant recipients == SessionAudience(clients, workspace, actor) - rest
      {
        var socket :| socket in rest;
        if (socket in connectionUsers && connectionUsers[socket] == actor) || (socket in connectionRoles && connectionRoles[socket] == "owner") {
          recipients := recipients + {socket};
        }
        rest := rest - {socket};
      }
      delivered := recipients - broken;
      DropStale(workspace, recipients * broken);
    }

    // The sockets that a revoked device is told about and closed.
    method RevokeDevice(device: DeviceId) returns (closed: set<Socket>)
      requires Valid()
      ensures closed == OnDevice(clients, device)
    {
      closed := if device in deviceConnections then deviceConnections[device] else {};
    }
  }

  // --- upkeep of the indexes -------------------------------------------------------------

  lemma AddToWorkspace(index: Index, clients: Clients, socket: Socket, client: Client)
    requires WorkspaceIndex(index, clients) && socket !in clients
    ensures WorkspaceIndex(Add(index, client.workspace, socket), clients[socket := client])
  {
  }

  lemma AddToDevice(index: Index, clients: Clients, socket: Socket, client: Client)
    requires DeviceIndex(index, clients) && socket !in clients
    ensures DeviceIndex(if client.device.Some? then Add(index, client.device.value, socket) else index, clients[socket := client])
  {
  }

  lemma AddFields(clients: Clients, socket: Socket, client: Client)
    requires socket !in clients
    ensures DevicesOf(clients[socket := client]) == if client.device.Some? then DevicesOf(clients)[socket := client.device.value] else DevicesOf(clients)
    ensures UsersOf(clients[socket := client]) == if client.user.Some? then UsersOf(clients)[socket := client.user.value] else UsersOf(clients)
    ensures RolesOf(clients[socket := client]) == if client.role.Some? then RolesOf(clients)[socket := client.role.value] else RolesOf(clients)
  {
  }

  lemma LeaveFields(clients: Clients, workspace: Workspace, socket: Socket)
    requires InWorkspace(clients, workspace) != {}
    ensures DevicesOf(Disconnected(clients, workspace, socket)) == DevicesOf(clients) - {socket}
    ensures UsersOf(Disconnected(clients, workspace, socket)) == UsersOf(clients) - {socket}
    ensures RolesOf(Disconnected(clients, workspace, socket)) == RolesOf(clients) - {socket}
  {
  }

  lemma LeaveWorkspace(index: Index, clients: Clients, workspace: Workspace, socket: Socket)
    requires WorkspaceIndex(index, clients)
    ensures WorkspaceIndex(Discard(index, workspace, socket), Disconnected(clients, workspace, socket))
  {
  }

  lemma LeaveDevice(index: Index, clients: Clients, workspace: Workspace, socket: Socket, device: Option<DeviceId>)
    requires DeviceIndex(index, clients) && InWorkspace(clients, workspace) != {}
    requires device == if socket in clients then clients[socket].device else None
    ensures DeviceIndex(if device.Some? then Discard(index, device.value, socket) else index, Disconnected(clients, workspace, socket))
  {
    var after := Disconnected(clients, workspace, socket);
    forall k: nat ensures OnDevice(after, k) == OnDevice(clients, k) - {socket} {
    }
    forall s | s in after && after[s].device.Some? ensures s in OnDevice(after, after[s].device.value) {
    }
  }

  lemma ConnectKeeps(connections: Index, deviceConnections: Index, devices: map<Socket, DeviceId>, users: map<Socket, UserId>,
                     roles: map<Socket, string>, clients: Clients, socket: Socket, client: Client)
    requires HubInv(connections, deviceConnections, devices, users, roles, clients) && socket !in clients
    ensures HubInv(Add(connections, client.workspace, socket),
                   if client.device.Some? then Add(deviceConnections, client.device.value, socket) else deviceConnections,
                   if client.device.Some? then devices[socket := client.device.value] else devices,
                   if client.user.Some? then users[socket := client.user.value] else users,
                   if client.role.Some? then roles[socket := client.role.value] else roles,
                   clients[socket := client])
  {
    AddToWorkspace(connections, clients, socket, client);
    AddToDevice(deviceConnections, clients, socket, client);
    AddFields(clients, socket, client);
  }

  lemma DisconnectKeeps(connections: Index, deviceConnections: Index, devices: map<Socket, DeviceId>, users: map<Socket, UserId>,
                        roles: map<Socket, string>, clients: Clients, workspace: Workspace, socket: Socket)
    requires HubInv(connections, deviceConnections, devices, users, roles, clients) && workspace in connections
    ensures HubInv(Discard(connections, workspace, socket),
                   if socket in devices then Discard(deviceConnections, devices[socket], socket) else deviceConnections,
                   devices - {socket}, users - {socket}, roles - {socket}, Disconnected(clients, workspace, socket))
  {
    assert InWorkspace(clients, workspace) != {};
    var device := if socket in clients then clients[socket].device else None;
    LeaveWorkspace(connections, clients, workspace, socket);
    LeaveDevice(deviceConnections, clients, workspace, socket, device);
    LeaveFields(clients, workspace, socket);
  }

  // --- what the dictionaries say together ---------------------------------------------

  // The device index and the device of each socket are inverse to each other,
  // and no set is kept empty.
  lemma DeviceIndexesAreInverse(hub: Hub, socket: Socket, device: DeviceId)
    requires hub.Valid()
    ensures (socket in hub.connectionDevices && hub.connectionDevices[socket] == device)
      <==> (device in hub.deviceConnections && socket in hub.deviceConnections[device])
    ensures forall k | k in hub.deviceConnections :: hub.deviceConnections[k] != {}
    ensures forall k | k in hub.connections :: hub.connections[k] != {}
  {
  }

  // A socket that is no client is in none of the five dictionaries.
  lemma StrangersAreNowhere(hub: Hub, socket: Socket)
    requires hub.Valid() && socket !in hub.clients
    ensures socket !in hub.connectionDevices && socket !in hub.connectionUsers && socket !in hub.connectionRoles
    ensures forall k | k in hub.connections :: socket !in hub.connections[k]
    ensures forall k | k in hub.deviceConnections :: socket !in hub.deviceConnections[k]
  {
  }
}
