/**
 * The database the import script writes to, as an in-memory store: four tables, the snapshot of
 * the last commit, and an id sequence. Uniqueness outcomes and driver failures, which depend on a
 * schema outside this model, come in as parameters.
 */
module ImportStore {
  import opened Wrappers
  import opened Calendar
  import opened Cells
  import ImportHelpers

  datatype ClientFields = ClientFields(nome: string, fantasia: Option<string>,
                                       nascimento: Option<Date>, cadastro: Option<Date>)

  /** A row of `tbl_clientes`, keyed by its CPF/CNPJ. */
  datatype Client = Client(id: nat, fields: ClientFields)

  /** A row of `tbl_cliente_contatos`. */
  datatype Contact = Contact(clienteId: nat, tipoContatoId: nat, contato: string)

  /** A row of `tbl_planos`, keyed by its description. */
  datatype Plan = Plan(id: nat, valor: real)

  /** A row of `tbl_cliente_contratos`. */
  datatype Contract = Contract(clienteId: nat, planoId: nat, diaVencimento: int, isento: bool,
                               logradouro: string, numero: Option<string>, bairro: Option<string>,
                               cidade: Option<string>, complemento: Option<string>, cep: string,
                               uf: Option<string>, statusId: nat)

  datatype Tables = Tables(clients: map<string, Client>, contacts: seq<Contact>,
                           plans: map<string, Plan>, contracts: seq<Contract>)

  /** How an `INSERT ... ON CONFLICT DO NOTHING RETURNING id` ends: a row, no row, or an error. */
  datatype Outcome = Inserted | Skipped | Failed(msg: string)

  /** Every id handed out so far lies below `n`, the next value of the id sequence. */
  predicate IdsBelow(t: Tables, n: nat) {
    (forall k :: k in t.clients ==> t.clients[k].id < n)
    && (forall k :: k in t.plans ==> t.plans[k].id < n)
  }

  /** No two clients and no two plans share an id. */
  predicate DistinctIds(t: Tables) {
    (forall a, b :: a in t.clients && b in t.clients && a != b ==> t.clients[a].id != t.clients[b].id)
    && (forall a, b :: a in t.plans && b in t.plans && a != b ==> t.plans[a].id != t.plans[b].id)
  }

  predicate WellFormed(t: Tables, n: nat) {
    IdsBelow(t, n) && DistinctIds(t)
  }

  // ---------------------------------------------------------------- clients

  /** The id the upsert returns: the stored client's, or a fresh one. */
  function ClientId(t: Tables, cpf: string, freshId: nat): nat {
    if cpf in t.clients then t.clients[cpf].id else freshId
  }

  /** `INSERT INTO tbl_clientes ... ON CONFLICT (cpf_cnpj) DO UPDATE SET ...` */
  function Upsert(t: Tables, cpf: string, fields: ClientFields, freshId: nat): (r: Tables)
    ensures cpf in r.clients && r.clients[cpf] == Client(ClientId(t, cpf, freshId), fields)
    ensures r.clients.Keys == t.clients.Keys + {cpf}
    ensures forall k :: k in t.clients && k != cpf ==> r.clients[k] == t.clients[k]
    ensures r.contacts == t.contacts && r.plans == t.plans && r.contracts == t.contracts
  {
    t.(clients := t.clients[cpf := Client(ClientId(t, cpf, freshId), fields)])
  }

  /**
   * An existing client keeps its id and only its fields change; a new one takes the fresh id.
   * With the fresh id taken from the sequence, ids stay distinct and below the sequence.
   */
  lemma UpsertWellFormed(t: Tables, cpf: string, fields: ClientFields, n: nat)
    requires WellFormed(t, n)
    ensures WellFormed(Upsert(t, cpf, fields, n), if cpf in t.clients then n else n + 1)
  {
  }

  /** Upserting the same client twice is the same as upserting it once. */
  lemma UpsertTwice(t: Tables, cpf: string, fields: ClientFields, freshId: nat, laterId: nat)
    ensures Upsert(Upsert(t, cpf, fields, freshId), cpf, fields, laterId) == Upsert(t, cpf, fields, freshId)
    ensures ClientId(Upsert(t, cpf, fields, freshId), cpf, laterId) == ClientId(t, cpf, freshId)
  {
    var once := Upsert(t, cpf, fields, freshId);
    assert once.clients[cpf := Client(ClientId(once, cpf, laterId), fields)] == once.clients;
  }

  // ---------------------------------------------------------------- plans

  /** `encode_string(descricao, 255)` on the text the plan is looked up by. */
  function PlanKey(descricao: string): (key: string)
    ensures |key| <= 255 && |key| <= |descricao| && key == descricao[..|key|]
    ensures |descricao| <= 255 ==> key == descricao
  {
    ImportHelpers.EncodeStringOutcome(Text(descricao), Some(255));
    ImportHelpers.EncodeString(Text(descricao), Some(255)).value
  }

  /** The body of `get_or_create_plano` once the key is known: the stored plan, or a new one. */
  function PlanFor(t: Tables, key: string, valor: real, freshId: nat): (r: (Tables, nat)) {
    if key in t.plans then (t, t.plans[key].id)
    else (t.(plans := t.plans[key := Plan(freshId, valor)]), freshId)
  }

  /**
   * The answer is the id of the plan stored under the key afterwards. An existing plan is
   * returned as it is, its price untouched; a new one is stored with the given price and the
   * fresh id. No other plan and no other table changes.
   */
  lemma PlanForOutcome(t: Tables, key: string, valor: real, freshId: nat)
    ensures var r := PlanFor(t, key, valor, freshId);
            key in r.0.plans && r.1 == r.0.plans[key].id
            && (key in t.plans ==> r.0 == t)
            && (key !in t.plans ==> r.0.plans[key] == Plan(freshId, valor)
                                    && r.0.plans.Keys == t.plans.Keys + {key})
            && PricesKept(t, r.0)
            && r.0.clients == t.clients && r.0.contacts == t.contacts && r.0.contracts == t.contracts
  {
  }

  /** Every plan stored before is still stored, with the same id and the same price. */
  predicate PricesKept(before: Tables, after: Tables) {
    forall k :: k in before.plans ==> k in after.plans && after.plans[k] == before.plans[k]
  }

  /** Asking again for the same description gives the same id and changes nothing, whatever the price. */
  lemma PlanForTwice(t: Tables, key: string, valor: real, freshId: nat, valor2: real, laterId: nat)
    ensures var first := PlanFor(t, key, valor, freshId);
            PlanFor(first.0, key, valor2, laterId) == first
  {
  }

  lemma PlanForWellFormed(t: Tables, key: string, valor: real, n: nat)
    requires WellFormed(t, n)
    ensures WellFormed(PlanFor(t, key, valor, n).0, if key in t.plans then n else n + 1)
  {
  }

  // ---------------------------------------------------------------- statuses

  /** The status a contract gets when its name is not in `tbl_status_contrato`. */
  const DefaultStatusId: nat := 2

  /** The lookup of `get_status_id`: the id stored for the name, or the default. */
  function StatusIdOf(statuses: map<string, nat>, name: string): nat {
    if name in statuses then statuses[name] else DefaultStatusId
  }

  /** A name that is in the table gets its own id; any other name gets the default. */
  lemma StatusIdOfOutcome(statuses: map<string, nat>, name: string)
    ensures name in statuses ==> StatusIdOf(statuses, name) == statuses[name]
    ensures name !in statuses ==> StatusIdOf(statuses, name) == DefaultStatusId
    ensures StatusIdOf(statuses, name) == DefaultStatusId
            <==> name !in statuses || statuses[name] == DefaultStatusId
  {
  }

  // ---------------------------------------------------------------- the connection

  /**
   * The tables as the open transaction sees them, the snapshot of the last commit, and the id
   * sequence, which a rollback does not rewind.
   */
  class Store {
    var clients: map<string, Client>
    var contacts: seq<Contact>
    var plans: map<string, Plan>
    var contracts: seq<Contract>
    var committed: Tables
    var nextId: nat
    const statuses: map<string, nat>

    function Live(): Tables
      reads this
    {
      Tables(clients, contacts, plans, contracts)
    }

    /** No uncommitted change is pending. */
    predicate InSync()
      reads this
    {
      Live() == committed
    }

    predicate Valid()
      reads this
    {
      WellFormed(Live(), nextId) && WellFormed(committed, nextId)
    }

    constructor (initial: Tables, statuses: map<string, nat>, nextId: nat)
      requires WellFormed(initial, nextId)
      ensures Valid() && InSync()
      ensures committed == initial && this.statuses == statuses && this.nextId == nextId
    {
      clients, contacts, plans, contracts := initial.clients, initial.contacts, initial.plans, initial.contracts;
      committed := initial;
      this.statuses := statuses;
      this.nextId := nextId;
    }

    /** `conn.rollback()`: the open transaction's changes are discarded. */
    method Rollback()
      requires Valid()
      modifies this
      ensures Valid() && InSync()
      ensures committed == old(committed) && nextId == old(nextId)
    {
      clients, contacts, plans, contracts := committed.clients, committed.contacts, committed.plans, committed.contracts;
    }

    /** `conn.commit()`, which may fail with the driver's message `fault`; a failed commit keeps nothing. */
    method Commit(fault: Option<string>) returns (r: Result<()>)
      requires Valid()
      modifies this
      ensures Valid()
      ensures Live() == old(Live()) && nextId == old(nextId)
      ensures fault.None? ==> r == Ok(()) && committed == old(Live()) && InSync()
      ensures fault.Some? ==> r == Err(fault.value) && committed == old(committed)
    {
      if fault.Some? {
        return Err(fault.value);
      }
      committed := Live();
      r := Ok(());
    }

    /** The client upsert; on success it returns the client's id. */
    method UpsertClient(cpf: string, fields: ClientFields, fault: Option<string>) returns (r: Result<nat>)
      requires Valid()
      modifies this
      ensures Valid() && committed == old(committed)
      ensures fault.Some? ==> r == Err(fault.value) && Live() == old(Live()) && nextId == old(nextId)
      ensures fault.None? ==> r == Ok(ClientId(old(Live()), cpf, old(nextId)))
                              && Live() == Upsert(old(Live()), cpf, fields, old(nextId))
                              && nextId == if cpf in old(clients) then old(nextId) else old(nextId) + 1
    {
      if fault.Some? {
        return Err(fault.value);
      }
      UpsertWellFormed(Live(), cpf, fields, nextId);
      var id := ClientId(Live(), cpf, nextId);
      var isNew := cpf !in clients;
      clients := clients[cpf := Client(id, fields)];
      if isNew {
        nextId := nextId + 1;
      }
      r := Ok(id);
    }

    /** A contact insert that skips duplicates; `Ok(true)` when a row was returned. */
    method InsertContact(c: Contact, outcome: Outcome) returns (r: Result<bool>)
      requires Valid()
      modifies this
      ensures Valid() && committed == old(committed) && nextId == old(nextId)
      ensures Live() == ContactStep(old(Live()), c, outcome)
      ensures r == match outcome case Inserted => Ok(true) case Skipped => Ok(false) case Failed(m) => Err(m)
    {
      match outcome
      case Inserted =>
        contacts := contacts + [c];
        r := Ok(true);
      case Skipped =>
        r := Ok(false);
      case Failed(m) =>
        r := Err(m);
    }

    /** `get_or_create_plano(cursor, descricao, valor)`; `fault` is a driver error on either statement. */
    method GetOrCreatePlano(descricao: string, valor: real, fault: Option<string>) returns (r: Result<nat>)
      requires Valid()
      modifies this
      ensures Valid() && committed == old(committed)
      ensures fault.Some? ==> r == Err(fault.value) && Live() == old(Live()) && nextId == old(nextId)
      ensures fault.None? ==>
                var p := PlanFor(old(Live()), PlanKey(descricao), valor, old(nextId));
                Live() == p.0 && r == Ok(p.1)
                && nextId == if PlanKey(descricao) in old(plans) then old(nextId) else old(nextId) + 1
    {
      if fault.Some? {
        return Err(fault.value);
      }
      var key := PlanKey(descricao);
      if key in plans {
        return Ok(plans[key].id);
      }
      PlanForWellFormed(Live(), key, valor, nextId);
      var id := nextId;
      plans := plans[key := Plan(id, valor)];
      nextId := nextId + 1;
      r := Ok(id);
    }

    /** `get_status_id(cursor, status)`: a read, which changes nothing. */
    method GetStatusId(status: string, fault: Option<string>) returns (r: Result<nat>)
      ensures fault.Some? ==> r == Err(fault.value)
      ensures fault.None? ==> r == Ok(StatusIdOf(statuses, status))
    {
      if fault.Some? {
        return Err(fault.value);
      }
      ImportHelpers.EncodeStringOutcome(Text(status), None);
      var name := ImportHelpers.EncodeString(Text(status), None).value;
      if name in statuses {
        r := Ok(statuses[name]);
      } else {
        r := Ok(DefaultStatusId);
      }
    }

    /** A contract insert that skips duplicates; `Ok(true)` when a row was returned. */
    method InsertContract(c: Contract, outcome: Outcome) returns (r: Result<bool>)
      requires Valid()
      modifies this
      ensures Valid() && committed == old(committed) && nextId == old(nextId)
      ensures outcome.Inserted? ==> Live() == old(Live()).(contracts := old(contracts) + [c])
      ensures !outcome.Inserted? ==> Live() == old(Live())
      ensures r == match outcome case Inserted => Ok(true) case Skipped => Ok(false) case Failed(m) => Err(m)
    {
      match outcome
      case Inserted =>
        contracts := contracts + [c];
        r := Ok(true);
      case Skipped =>
        r := Ok(false);
      case Failed(m) =>
        r := Err(m);
    }
  }

  /** The effect of one contact insert on the open transaction. */
  function ContactStep(t: Tables, c: Contact, outcome: Outcome): (r: Tables)
    ensures outcome.Inserted? ==> r.contacts == t.contacts + [c]
    ensures !outcome.Inserted? ==> r == t
    ensures r.clients == t.clients && r.plans == t.plans && r.contracts == t.contracts
  {
    if outcome.Inserted? then t.(contacts := t.contacts + [c]) else t
  }
}
