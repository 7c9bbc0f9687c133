/**
 * The row loop of the import script: each spreadsheet row passes the CPF/CNPJ and name gates,
 * upserts its client, inserts its contacts best-effort, finds its plan and status, passes the
 * due-day, CEP and street gates, inserts its contract and commits; every failure after the
 * upsert rolls the transaction back. The counters and the two report lists record the outcome.
 */
module Importer {
  import opened Wrappers
  import opened Strings
  import opened Cells
  import opened Calendar
  import opened ImportHelpers
  import opened ImportStore

  /** The twenty expected columns of the spreadsheet, in order. */
  datatype SheetRow = SheetRow(cpfCnpj: Cell, nome: Cell, fantasia: Cell, dataNasc: Cell,
                               dataCadastro: Cell, celulares: Cell, telefones: Cell, emails: Cell,
                               plano: Cell, planoValor: Cell, vencimento: Cell, isento: Cell,
                               endereco: Cell, numero: Cell, bairro: Cell, cidade: Cell,
                               complemento: Cell, cep: Cell, uf: Cell, status: Cell)

  /**
   * What the database and the float parser answer for one row: a driver error on the client
   * upsert, the outcome of each contact insert, `float(row['Plano Valor'])`, a driver error in
   * the plan and status lookups, the outcome of the contract insert, and a failed commit.
   */
  datatype ImportOracle = ImportOracle(clientFault: Option<string>,
                                       celular: Outcome, telefone: Outcome, email: Outcome,
                                       planoValor: Result<real>, planFault: Option<string>,
                                       statusFault: Option<string>, contract: Outcome,
                                       commitFault: Option<string>)

  /** How a row ends. */
  datatype Fate =
    | Rejected(motive: string)     // a gate before any database statement
    | RolledBack(motive: string)   // an error after the client upsert; the transaction is rolled back
    | Imported                     // the contract was inserted and committed
    | DuplicateContract            // the contract insert returned no row; the rest was committed
    | CommitFailed(contractInserted: bool, motive: string)

  /** A row of either report, with its "Motivo do Erro". */
  datatype ImportReport = ImportReport(index: nat, row: SheetRow, motive: string)

  datatype Totals = Totals(clientes: nat, contatos: nat, contratos: nat, importados: nat, erros: nat)

  /** The gate motives tell the user what to put in the column: "Defina …" or "Coloque …". */
  const Define := "Defina "
  const Put := "Coloque "
  const NameMotive := Define + "Nome/Razão Social como um valor válido."
  const DueDayMotive := Define + "Vencimento como um número válido entre 1 e 31."
  const CepMotive := Define + "CEP como 00000000 (ou um CEP válido)."
  const StreetMotive := Put + "Endereço na Rua Desconhecida (ou um endereço válido)."
  const ClientErrorPrefix := "Erro ao inserir cliente: "
  const ContractErrorPrefix := "Erro ao inserir contrato: "
  const CommitErrorPrefix := "Erro ao confirmar transação: "

  // ---------------------------------------------------------------- the gates

  /** The CPF/CNPJ gate: a non-empty digit string of length 11 or 14; the check digits are not computed. */
  predicate CpfAccepted(cpf: Option<string>) {
    cpf.Some? && cpf.value != [] && (|cpf.value| == 11 || |cpf.value| == 14)
  }

  /** The reason a row fails the CPF/CNPJ gate, with an example built from what was typed. */
  function CpfMotive(cpf: Option<string>): string {
    Define + "CPF/CNPJ como um CPF válido de 11 dígitos (por exemplo, "
    + (if cpf.Some? && cpf.value != [] then cpf.value + "0" else "12345678901")
    + ") ou um CNPJ de 14 dígitos."
  }

  /** The name gate: the encoded name must be a non-empty string. */
  predicate NameAccepted(nome: Option<string>) {
    nome.Some? && nome.value != []
  }

  /** `row['Isento'] == 'Sim' if not pd.isna(row['Isento']) else False` */
  predicate Isento(cell: Cell) {
    cell == Text("Sim")
  }

  /**
   * The values the loop body cleans and then tests, in the order it tests them: the CPF/CNPJ,
   * the name, then the values of the contract block.
   */
  datatype Cleaned = Cleaned(cpf: Option<string>, nome: Option<string>, contract: ContractValues)

  /** The values the contract block tests: the due day, the CEP and the street. */
  datatype ContractValues = ContractValues(dia: Option<int>, cep: Option<string>, logradouro: Option<string>)

  function Clean(row: SheetRow): Cleaned {
    Cleaned(CleanCpfCnpj(row.cpfCnpj), EncodeString(row.nome, Some(255)), CleanContract(row))
  }

  function CleanContract(row: SheetRow): ContractValues {
    ContractValues(ValidateDiaVencimento(row.vencimento), CleanCep(row.cep), EncodeString(row.endereco, Some(255)))
  }

  /** Everything the contract insert needs from the row is present. */
  predicate ContractFieldsPresent(k: ContractValues) {
    k.dia.Some? && k.cep.Some? && k.logradouro.Some?
  }

  /** The client fields the upsert writes, once the name gate has passed. */
  function RowClientFields(row: SheetRow): ClientFields
    requires NameAccepted(Clean(row).nome)
  {
    ClientFields(Clean(row).nome.value, EncodeString(row.fantasia, Some(255)),
                 ConvertExcelDate(row.dataNasc), ConvertExcelDate(row.dataCadastro))
  }

  /** The contract a row asks for, given the ids the upsert and the lookups returned. */
  function RowContract(row: SheetRow, clienteId: nat, planoId: nat, statusId: nat): (c: Contract)
    requires ContractFieldsPresent(CleanContract(row))
    ensures 1 <= c.diaVencimento <= 31 && |c.cep| == 8 && AllDigits(c.cep)
    ensures c.uf.Some? ==> States.IsCode(c.uf.value)
    ensures c.clienteId == clienteId && c.planoId == planoId && c.statusId == statusId
  {
    CleanCepShape(row.cep);
    NormalizeUfCode(row.uf);
    var cleaned := CleanContract(row);
    Contract(clienteId, planoId, cleaned.dia.value, Isento(row.isento), cleaned.logradouro.value,
             EncodeString(row.numero, Some(15)), EncodeString(row.bairro, Some(255)),
             EncodeString(row.cidade, Some(255)), EncodeString(row.complemento, Some(500)),
             cleaned.cep.value, NormalizeUf(row.uf), statusId)
  }

  // ---------------------------------------------------------------- the fate of a row

  /** What becomes of a row. */
  function RowFate(row: SheetRow, oracle: ImportOracle): Fate {
    FateOf(Clean(row), oracle)
  }

  /** The fate of a row from its cleaned values, gate by gate in the order the loop body tests them. */
  function FateOf(c: Cleaned, oracle: ImportOracle): Fate {
    if !CpfAccepted(c.cpf) then Rejected(CpfMotive(c.cpf))
    else if !NameAccepted(c.nome) then Rejected(NameMotive)
    else match oracle.clientFault
      case Some(e) => RolledBack(ClientErrorPrefix + e)
      case None => ContractFate(c.contract, oracle)
  }

  /** The part of the row's fate decided after its client was upserted. */
  function ContractFate(k: ContractValues, oracle: ImportOracle): Fate {
    match LookupFault(oracle)
    case Some(e) => RolledBack(ContractErrorPrefix + e)
    case None => GateFate(k, oracle)
  }

  /** The first failure of the contract block's lookups: the price, the plan, then the status. */
  function LookupFault(oracle: ImportOracle): Option<string> {
    if oracle.planoValor.Err? then Some(oracle.planoValor.msg)
    else if oracle.planFault.Some? then oracle.planFault
    else oracle.statusFault
  }

  /** The part of the row's fate decided once the plan and status are known. */
  function GateFate(k: ContractValues, oracle: ImportOracle): Fate {
    if k.dia.None? then RolledBack(DueDayMotive)
    else if k.cep.None? then RolledBack(CepMotive)
    else if k.logradouro.None? then RolledBack(StreetMotive)
    else InsertFate(oracle)
  }

  /** The fate of a row that reached the contract insert: the insert, then the commit. */
  function InsertFate(oracle: ImportOracle): Fate {
    match oracle.contract
    case Failed(e) => RolledBack(ContractErrorPrefix + e)
    case _ =>
      match oracle.commitFault
      case Some(e) => CommitFailed(oracle.contract.Inserted?, CommitErrorPrefix + e)
      case None => if oracle.contract.Inserted? then Imported else DuplicateContract
  }

  /** The row goes to the error report. */
  predicate InErrors(f: Fate) {
    f.Rejected? || f.RolledBack? || f.CommitFailed?
  }

  /** The row goes to the imported report: its contract was inserted, whether or not the commit held. */
  predicate InSuccess(f: Fate) {
    f.Imported? || (f.CommitFailed? && f.contractInserted)
  }

  function Motive(f: Fate): string
    requires InErrors(f)
  {
    f.motive
  }

  /**
   * A row is reported as both failed and imported exactly when its commit failed after its
   * contract went in, and in neither report exactly when its contract was a duplicate that was
   * committed. Every reported failure carries a non-empty motive.
   */
  lemma FateClasses(c: Cleaned, oracle: ImportOracle)
    ensures var f := FateOf(c, oracle);
            (InErrors(f) && InSuccess(f) <==> f.CommitFailed? && f.contractInserted)
            && (!InErrors(f) && !InSuccess(f) <==> f.DuplicateContract?)
            && (InErrors(f) ==> Motive(f) != [])
  {
  }

  /** The gates that turn a row away before it reaches the database: the CPF/CNPJ first, then the name. */
  lemma RejectedMeans(c: Cleaned, oracle: ImportOracle)
    ensures var f := FateOf(c, oracle);
            (f.Rejected? <==> !CpfAccepted(c.cpf) || !NameAccepted(c.nome))
            && (!CpfAccepted(c.cpf) ==> f == Rejected(CpfMotive(c.cpf)))
            && (CpfAccepted(c.cpf) && !NameAccepted(c.nome) ==> f == Rejected(NameMotive))
  {
  }

  /**
   * The CPF/CNPJ gate checks the length only: any 11 or 14 digits pass, and whatever the field
   * validator accepts passes too, whichever second CPF weight list it uses.
   */
  lemma CpfGateMeans(cpfCnpj: Cell, cpfWeights2: seq<int>)
    ensures CpfAccepted(CleanCpfCnpj(cpfCnpj))
            <==> !cpfCnpj.Empty? && (|DigitsOnly(Str(cpfCnpj))| == 11 || |DigitsOnly(Str(cpfCnpj))| == 14)
    ensures TaxId.CleanCpfCnpjWith(cpfCnpj, cpfWeights2).reason.None? ==> CpfAccepted(CleanCpfCnpj(cpfCnpj))
  {
    if TaxId.CleanCpfCnpjWith(cpfCnpj, cpfWeights2).reason.None? {
      StrictCpfPassesImportGate(cpfCnpj, cpfWeights2);
    }
  }

  /**
   * Once the client and the lookups went through, the first of the due-day, CEP and street gates
   * that fails supplies the reason, and a row that passes all three is rolled back only when its
   * contract insert fails.
   */
  lemma ContractGatesInOrder(c: Cleaned, oracle: ImportOracle)
    requires CpfAccepted(c.cpf) && NameAccepted(c.nome)
    requires oracle.clientFault.None? && oracle.planoValor.Ok? && oracle.planFault.None? && oracle.statusFault.None?
    ensures var f := FateOf(c, oracle);
            var k := c.contract;
            (k.dia.None? ==> f == RolledBack(DueDayMotive))
            && (k.dia.Some? && k.cep.None? ==> f == RolledBack(CepMotive))
            && (k.dia.Some? && k.cep.Some? && k.logradouro.None? ==> f == RolledBack(StreetMotive))
            && (ContractFieldsPresent(k) ==> (f.RolledBack? <==> oracle.contract.Failed?))
  {
  }

  /** A failed, skipped or inserted contact never changes what becomes of the row. */
  lemma ContactsDoNotDecideFate(c: Cleaned, oracle: ImportOracle, celular: Outcome, telefone: Outcome, email: Outcome)
    ensures FateOf(c, oracle) == FateOf(c, oracle.(celular := celular, telefone := telefone, email := email))
  {
  }

  /** A state that cannot be recognised is stored as no state: the UF column never decides a row's fate. */
  lemma UfNeverRejects(row: SheetRow, oracle: ImportOracle, uf: Cell)
    ensures RowFate(row.(uf := uf), oracle) == RowFate(row, oracle)
  {
    assert Clean(row.(uf := uf)) == Clean(row);
  }

  /** Text with a decimal point in the due-day column makes the row fail, whatever else it holds. */
  lemma DecimalDueDayFailsRow(row: SheetRow, oracle: ImportOracle)
    requires CpfAccepted(Clean(row).cpf) && NameAccepted(Clean(row).nome)
    requires oracle.clientFault.None? && oracle.planoValor.Ok? && oracle.planFault.None? && oracle.statusFault.None?
    requires row.vencimento == Text("15.0")
    ensures RowFate(row, oracle) == RolledBack(DueDayMotive)
  {
    DecimalDayRefused();
    ContractGatesInOrder(Clean(row), oracle);
  }

  // ---------------------------------------------------------------- counters

  /** `total_clientes` counts every upsert that went through, even when a later rollback undoes it. */
  predicate ClientCounted(c: Cleaned, oracle: ImportOracle) {
    CpfAccepted(c.cpf) && NameAccepted(c.nome) && oracle.clientFault.None?
  }

  /** A contact column, the cleaned value and the contact type it is stored under. */
  datatype ContactSlot = ContactSlot(tipo: string, contato: Option<string>, tipoContatoId: nat)

  /** The contact list the loop body builds: mobile (type 2), landline (type 1), e-mail (type 3). */
  function ContactSlots(row: SheetRow): (slots: seq<ContactSlot>)
    ensures |slots| == 3
  {
    [ContactSlot("Celular", CleanPhone(row.celulares), 2),
     ContactSlot("Telefone", CleanPhone(row.telefones), 1),
     ContactSlot("E-Mail", EncodeString(row.emails, Some(255)), 3)]
  }

  function ContactOutcomes(oracle: ImportOracle): (outs: seq<Outcome>)
    ensures |outs| == 3
  {
    [oracle.celular, oracle.telefone, oracle.email]
  }

  /** `if contato:` — a value, and not the empty string. */
  predicate Present(slot: ContactSlot) {
    slot.contato.Some? && slot.contato.value != []
  }

  /** The number of the first `n` slots whose contact was attempted and returned a row. */
  function InsertedCount(slots: seq<ContactSlot>, outs: seq<Outcome>, n: nat): (k: nat)
    requires n <= |slots| == |outs|
    ensures k <= n
  {
    if n == 0 then 0
    else InsertedCount(slots, outs, n - 1) + (if Present(slots[n - 1]) && outs[n - 1].Inserted? then 1 else 0)
  }

  /**
   * The five counters after one more row that ended in `f`; `clientCounted` says whether its upsert
   * went through, and `contacts` is the number of its contact inserts that returned a row.
   */
  function Tally(totals: Totals, f: Fate, clientCounted: bool, contacts: nat): Totals {
    Totals(totals.clientes + (if clientCounted then 1 else 0),
           totals.contatos + (if clientCounted then contacts else 0),
           totals.contratos + (if InSuccess(f) then 1 else 0),
           totals.importados + (if InSuccess(f) then 1 else 0),
           totals.erros + (if InErrors(f) then 1 else 0))
  }

  /**
   * The client counter counts the rows that got past the gates and the upsert, including rows
   * rolled back later; the contract counters count exactly the rows on the imported report,
   * which are the rows that reached the contract insert and got a row back.
   */
  lemma CountersMean(c: Cleaned, oracle: ImportOracle)
    ensures var f := FateOf(c, oracle);
            (ClientCounted(c, oracle) <==> !f.Rejected? && !(f.RolledBack? && StartsWith(f.motive, ClientErrorPrefix)))
            && (InSuccess(f) <==> (ClientCounted(c, oracle) && oracle.planoValor.Ok? && oracle.planFault.None?
                                  && oracle.statusFault.None? && ContractFieldsPresent(c.contract)
                                  && oracle.contract.Inserted?))
  {
    if ClientCounted(c, oracle) {
      ContractFateNotClientError(c.contract, oracle);
    } else if !FateOf(c, oracle).Rejected? {
      var e := oracle.clientFault.value;
      assert (ClientErrorPrefix + e)[..|ClientErrorPrefix|] == ClientErrorPrefix;
    }
  }

  lemma ContractFateNotClientError(k: ContractValues, oracle: ImportOracle)
    ensures var f := ContractFate(k, oracle);
            f.RolledBack? ==> !StartsWith(f.motive, ClientErrorPrefix)
  {
    var f := ContractFate(k, oracle);
    if oracle.planoValor.Err? {
      ContractMotiveNotClient(oracle.planoValor.msg);
    } else if oracle.planFault.Some? {
      ContractMotiveNotClient(oracle.planFault.value);
    } else if oracle.statusFault.Some? {
      ContractMotiveNotClient(oracle.statusFault.value);
    } else if k.dia.None? || k.cep.None? || k.logradouro.None? {
      assert f.motive[0] == Define[0] || f.motive[0] == Put[0];
      assert f.motive[..|ClientErrorPrefix|][0] == f.motive[0];
    } else if oracle.contract.Failed? {
      ContractMotiveNotClient(oracle.contract.msg);
    }
  }

  lemma ContractMotiveNotClient(e: string)
    ensures !StartsWith(ContractErrorPrefix + e, ClientErrorPrefix)
  {
    assert (ContractErrorPrefix + e)[17] != ClientErrorPrefix[17];
  }

  // ---------------------------------------------------------------- the contact loop

  /**
   * The effect of one contact on the open transaction: an absent contact is not attempted, an
   * inserted one is added, a skipped one changes nothing, and a failed one rolls back to the
   * committed snapshot.
   */
  function ContactEffect(t: Tables, committed: Tables, clienteId: nat, slot: ContactSlot, out: Outcome): Tables {
    if !Present(slot) then t
    else if out.Failed? then committed
    else ContactStep(t, Contact(clienteId, slot.tipoContatoId, slot.contato.value), out)
  }

  /** The open transaction after the first `n` contacts. */
  function ContactsAfter(t: Tables, committed: Tables, clienteId: nat, slots: seq<ContactSlot>,
                         outs: seq<Outcome>, n: nat): Tables
    requires n <= |slots| == |outs|
  {
    if n == 0 then t
    else ContactEffect(ContactsAfter(t, committed, clienteId, slots, outs, n - 1), committed, clienteId,
                       slots[n - 1], outs[n - 1])
  }

  /** One of the first `n` contacts was attempted and failed. */
  predicate AnyFailed(slots: seq<ContactSlot>, outs: seq<Outcome>, n: nat)
    requires n <= |slots| == |outs|
  {
    exists i :: 0 <= i < n && Present(slots[i]) && outs[i].Failed?
  }

  /** The contacts the first `n` slots added, in order. */
  function AddedContacts(clienteId: nat, slots: seq<ContactSlot>, outs: seq<Outcome>, n: nat): (cs: seq<Contact>)
    requires n <= |slots| == |outs|
    ensures |cs| == InsertedCount(slots, outs, n)
  {
    if n == 0 then []
    else AddedContacts(clienteId, slots, outs, n - 1)
         + (if Present(slots[n - 1]) && outs[n - 1].Inserted?
            then [Contact(clienteId, slots[n - 1].tipoContatoId, slots[n - 1].contato.value)] else [])
  }

  /**
   * Contacts never touch plans or contracts. With no failure, the upserted client stays and the
   * inserted contacts are appended in order; after a failure, the client table is back to the
   * committed one, so the row's upsert is gone.
   */
  lemma {:induction false} ContactsAfterShape(t: Tables, committed: Tables, clienteId: nat,
                                              slots: seq<ContactSlot>, outs: seq<Outcome>, n: nat)
    requires n <= |slots| == |outs|
    requires t.plans == committed.plans && t.contracts == committed.contracts
    ensures var r := ContactsAfter(t, committed, clienteId, slots, outs, n);
            r.plans == committed.plans && r.contracts == committed.contracts
            && (!AnyFailed(slots, outs, n) ==> r.clients == t.clients
                                               && r.contacts == t.contacts + AddedContacts(clienteId, slots, outs, n))
            && (AnyFailed(slots, outs, n) ==> r.clients == committed.clients)
  {
    if n > 0 {
      ContactsAfterShape(t, committed, clienteId, slots, outs, n - 1);
      if !AnyFailed(slots, outs, n) {
        assert !AnyFailed(slots, outs, n - 1);
      } else if !(Present(slots[n - 1]) && outs[n - 1].Failed?) {
        var i :| 0 <= i < n && Present(slots[i]) && outs[i].Failed?;
        assert AnyFailed(slots, outs, n - 1);
      }
    }
  }

  /** The contact loop keeps the committed contacts in front, even across a rollback. */
  lemma {:induction false} ContactsAfterExtends(t: Tables, committed: Tables, clienteId: nat,
                                                slots: seq<ContactSlot>, outs: seq<Outcome>, n: nat)
    requires n <= |slots| == |outs|
    requires committed.contacts <= t.contacts
    ensures committed.contacts <= ContactsAfter(t, committed, clienteId, slots, outs, n).contacts
  {
    if n > 0 {
      ContactsAfterExtends(t, committed, clienteId, slots, outs, n - 1);
    }
  }

  /** `for tipo, contato, tipo_contato_id in contatos:` — each present contact is inserted; a failure rolls back and the loop goes on. */
  method InsertContacts(store: Store, clienteId: nat, slots: seq<ContactSlot>, outs: seq<Outcome>)
    returns (inserted: nat)
    requires |slots| == |outs| && store.Valid()
    modifies store
    ensures store.Valid() && store.committed == old(store.committed) && store.nextId == old(store.nextId)
    ensures store.Live() == ContactsAfter(old(store.Live()), store.committed, clienteId, slots, outs, |slots|)
    ensures inserted == InsertedCount(slots, outs, |slots|)
  {
    inserted := 0;
    for i := 0 to |slots|
      invariant store.Valid() && store.committed == old(store.committed) && store.nextId == old(store.nextId)
      invariant store.Live() == ContactsAfter(old(store.Live()), store.committed, clienteId, slots, outs, i)
      invariant inserted == InsertedCount(slots, outs, i)
    {
      var slot := slots[i];
      if Present(slot) {
        var r := store.InsertContact(Contact(clienteId, slot.tipoContatoId, slot.contato.value), outs[i]);
        match r
        case Ok(returned) =>
          if returned {
            inserted := inserted + 1;
          }
        case Err(_) =>
          store.Rollback();
      }
    }
  }

  // ---------------------------------------------------------------- one row

  /**
   * The tables the contract block leaves once committed, from the open tables `t` and the id
   * sequence `n` it starts with: the row's plan looked up or created under its description, and
   * the row's contract appended when the insert returned a row.
   */
  function ContractTables(t: Tables, n: nat, row: SheetRow, valor: real, inserted: bool, clienteId: nat,
                          statuses: map<string, nat>): Tables
    requires ContractFieldsPresent(CleanContract(row))
  {
    var p := PlanFor(t, PlanKey(Str(row.plano)), valor, n);
    p.0.(contracts := p.0.contracts
                      + (if inserted then [RowContract(row, clienteId, p.1, StatusIdOf(statuses, Str(row.status)))] else []))
  }

  /**
   * The tables a committed row leaves, from the committed tables `before` and the id sequence
   * `n`: the client upserted, the contacts applied in order (a failed one rolling back to
   * `before`), then the contract block.
   */
  function RowTables(before: Tables, n: nat, row: SheetRow, oracle: ImportOracle, statuses: map<string, nat>): Tables
    requires CpfAccepted(Clean(row).cpf) && NameAccepted(Clean(row).nome) && ContractFieldsPresent(CleanContract(row))
    requires oracle.planoValor.Ok?
  {
    var cpf := Clean(row).cpf.value;
    var clienteId := ClientId(before, cpf, n);
    var upserted := Upsert(before, cpf, RowClientFields(row), n);
    var afterContacts := ContactsAfter(upserted, before, clienteId, ContactSlots(row), ContactOutcomes(oracle), 3);
    ContractTables(afterContacts, if cpf in before.clients then n else n + 1, row, oracle.planoValor.value,
                   oracle.contract.Inserted?, clienteId, statuses)
  }

  /**
   * What a committed row leaves in the database: its plan is stored under its description; when
   * no contact failed, its client is stored under the CPF/CNPJ with the row's fields; and an
   * inserted contract is appended, made from the row, with that plan's id, the status the lookup
   * gave and, when no contact failed, that client's id. A skipped contract appends nothing.
   */
  predicate RowCommitted(before: Tables, after: Tables, row: SheetRow, oracle: ImportOracle,
                         statuses: map<string, nat>)
    requires CpfAccepted(Clean(row).cpf) && NameAccepted(Clean(row).nome) && ContractFieldsPresent(CleanContract(row))
  {
    var key := PlanKey(Str(row.plano));
    var cpf := Clean(row).cpf.value;
    var clientKept := !AnyFailed(ContactSlots(row), ContactOutcomes(oracle), 3);
    key in after.plans
    && (clientKept ==> cpf in after.clients && after.clients[cpf].fields == RowClientFields(row))
    && (oracle.contract.Inserted? ==>
          |after.contracts| == |before.contracts| + 1
          && after.contracts[..|before.contracts|] == before.contracts
          && var c := after.contracts[|before.contracts|];
             c == RowContract(row, c.clienteId, after.plans[key].id, StatusIdOf(statuses, Str(row.status)))
             && (clientKept ==> c.clienteId == after.clients[cpf].id))
    && (!oracle.contract.Inserted? ==> after.contracts == before.contracts)
  }

  /**
   * A committed row leaves what `RowCommitted` says and changes nothing else: every other client
   * keeps its record, the committed contacts stay in front (followed by the row's inserted
   * contacts when none failed), every stored plan is kept and at most the row's plan is added.
   */
  lemma RowTablesMeans(before: Tables, n: nat, row: SheetRow, oracle: ImportOracle, statuses: map<string, nat>)
    requires CpfAccepted(Clean(row).cpf) && NameAccepted(Clean(row).nome) && ContractFieldsPresent(CleanContract(row))
    requires oracle.planoValor.Ok?
    ensures var after := RowTables(before, n, row, oracle, statuses);
            var cpf := Clean(row).cpf.value;
            var slots, outs := ContactSlots(row), ContactOutcomes(oracle);
            RowCommitted(before, after, row, oracle, statuses)
            && (forall k :: k in before.clients && k != cpf ==> k in after.clients && after.clients[k] == before.clients[k])
            && (AnyFailed(slots, outs, 3) ==> after.clients == before.clients)
            && (!AnyFailed(slots, outs, 3) ==>
                  after.clients.Keys == before.clients.Keys + {cpf}
                  && after.contacts == before.contacts + AddedContacts(ClientId(before, cpf, n), slots, outs, 3))
            && before.contacts <= after.contacts
            && PricesKept(before, after) && after.plans.Keys <= before.plans.Keys + {PlanKey(Str(row.plano))}
  {
    var cpf := Clean(row).cpf.value;
    var clienteId := ClientId(before, cpf, n);
    var slots, outs := ContactSlots(row), ContactOutcomes(oracle);
    var upserted := Upsert(before, cpf, RowClientFields(row), n);
    var afterContacts := ContactsAfter(upserted, before, clienteId, slots, outs, 3);
    ContactsAfterShape(upserted, before, clienteId, slots, outs, 3);
    ContactsAfterExtends(upserted, before, clienteId, slots, outs, 3);
    PlanForOutcome(afterContacts, PlanKey(Str(row.plano)), oracle.planoValor.value,
                   if cpf in before.clients then n else n + 1);
  }

  /**
   * The body of the row loop. The row's fate is `RowFate`; a failed row is appended to the error
   * report once with its motive, a row whose contract went in to the imported report; the
   * counters move as `Tally` says. Between rows nothing is left uncommitted; a rejected or failed
   * row leaves the committed tables as they were, a committed one leaves `RowTables` (which
   * `RowTablesMeans` spells out), and no row changes a stored plan.
   */
  method ProcessRow(store: Store, index: nat, row: SheetRow, oracle: ImportOracle,
                    totals: Totals, errors: seq<ImportReport>, success: seq<ImportReport>)
    returns (fate: Fate, totals': Totals, errors': seq<ImportReport>, success': seq<ImportReport>)
    requires store.Valid() && store.InSync()
    modifies store
    ensures store.Valid() && store.InSync()
    ensures fate == RowFate(row, oracle)
    ensures errors' == errors + (if InErrors(fate) then [ImportReport(index, row, Motive(fate))] else [])
    ensures success' == success + (if InSuccess(fate) then [ImportReport(index, row, "")] else [])
    ensures totals' == Tally(totals, fate, ClientCounted(Clean(row), oracle),
                             InsertedCount(ContactSlots(row), ContactOutcomes(oracle), 3))
    ensures PricesKept(old(store.committed), store.committed)
    ensures (fate.Rejected? || fate.RolledBack? || fate.CommitFailed?) ==> store.committed == old(store.committed)
    ensures fate.Rejected? ==> store.nextId == old(store.nextId)
    ensures (fate.Imported? || fate.DuplicateContract?) ==>
              CpfAccepted(Clean(row).cpf) && NameAccepted(Clean(row).nome)
              && ContractFieldsPresent(CleanContract(row)) && oracle.planoValor.Ok?
              && store.committed == RowTables(old(store.committed), old(store.nextId), row, oracle, store.statuses)
  {
    var clientes, contatos := 0, 0;
    var cpf := CleanCpfCnpj(row.cpfCnpj);
    if !CpfAccepted(cpf) {
      fate := Rejected(CpfMotive(cpf));
    } else {
      var dataNascimento := ConvertExcelDate(row.dataNasc);
      var dataCadastro := ConvertExcelDate(row.dataCadastro);
      var nome := EncodeString(row.nome, Some(255));
      if !NameAccepted(nome) {
        fate := Rejected(NameMotive);
      } else {
        var fields := ClientFields(nome.value, EncodeString(row.fantasia, Some(255)), dataNascimento, dataCadastro);
        var upsert := store.UpsertClient(cpf.value, fields, oracle.clientFault);
        if upsert.Err? {
          fate := RolledBack(ClientErrorPrefix + upsert.msg);
          store.Rollback();
        } else {
          clientes := 1;
          fate, contatos := ContactsAndContract(store, row, oracle, cpf.value, upsert.value);
        }
      }
    }
    // Each branch of the loop body records its row before `continue`, or after the commit.
    errors' := errors + (if InErrors(fate) then [ImportReport(index, row, Motive(fate))] else []);
    success' := success + (if InSuccess(fate) then [ImportReport(index, row, "")] else []);
    totals' := Tally(totals, fate, clientes == 1, contatos);
  }

  /**
   * The rest of the loop body once the row's client is upserted under `cpf` as `clienteId`: the
   * contact inserts, then the contract block and the commit. A committed row leaves the contract
   * block's tables over what the contact loop left.
   */
  method ContactsAndContract(store: Store, row: SheetRow, oracle: ImportOracle, cpf: string, clienteId: nat)
    returns (fate: Fate, contatos: nat)
    requires store.Valid()
    requires store.plans == store.committed.plans && store.contracts == store.committed.contracts
    requires CpfAccepted(Clean(row).cpf) && NameAccepted(Clean(row).nome) && cpf == Clean(row).cpf.value
    requires cpf in store.clients && store.clients[cpf] == Client(clienteId, RowClientFields(row))
    modifies store
    ensures store.Valid() && store.InSync()
    ensures fate == ContractFate(CleanContract(row), oracle) && !fate.Rejected?
    ensures contatos == InsertedCount(ContactSlots(row), ContactOutcomes(oracle), 3)
    ensures PricesKept(old(store.committed), store.committed)
    ensures (fate.RolledBack? || fate.CommitFailed?) ==> store.committed == old(store.committed)
    ensures (fate.Imported? || fate.DuplicateContract?) ==>
              ContractFieldsPresent(CleanContract(row)) && oracle.planoValor.Ok?
              && store.committed
                 == ContractTables(ContactsAfter(old(store.Live()), old(store.committed), clienteId,
                                                 ContactSlots(row), ContactOutcomes(oracle), 3),
                                   old(store.nextId), row, oracle.planoValor.value, oracle.contract.Inserted?,
                                   clienteId, store.statuses)
  {
    ghost var afterUpsert := store.Live();
    var slots, outs := ContactSlots(row), ContactOutcomes(oracle);
    contatos := InsertContacts(store, clienteId, slots, outs);
    ContactsAfterShape(afterUpsert, store.committed, clienteId, slots, outs, 3);
    fate := ImportContract(store, row, oracle, clienteId);
  }

  /**
   * The contract block of the loop body and the commit after it, for a row whose client was
   * upserted as `clienteId`: the plan and status lookups, the due-day, CEP and street gates, the
   * contract insert and the commit. Any failure rolls back; a committed row leaves
   * `ContractTables` of the open transaction: its clients and contacts in place, the row's plan
   * stored and, when inserted, the row's contract appended.
   */
  method ImportContract(store: Store, row: SheetRow, oracle: ImportOracle, clienteId: nat) returns (fate: Fate)
    requires store.Valid()
    requires store.plans == store.committed.plans && store.contracts == store.committed.contracts
    modifies store
    ensures store.Valid() && store.InSync()
    ensures fate == ContractFate(CleanContract(row), oracle) && !fate.Rejected?
    ensures PricesKept(old(store.committed), store.committed)
    ensures (fate.RolledBack? || fate.CommitFailed?) ==> store.committed == old(store.committed)
    ensures (fate.Imported? || fate.DuplicateContract?) ==>
              ContractFieldsPresent(CleanContract(row)) && oracle.planoValor.Ok?
              && store.committed == ContractTables(old(store.Live()), old(store.nextId), row, oracle.planoValor.value,
                                                   oracle.contract.Inserted?, clienteId, store.statuses)
  {
    if oracle.planoValor.Err? {
      fate := RolledBack(ContractErrorPrefix + oracle.planoValor.msg);
      store.Rollback();
      return;
    }
    ghost var live := store.Live();
    ghost var freshId := store.nextId;
    var ids := LookupIds(store, Str(row.plano), Str(row.status), oracle);
    if ids.Err? {
      fate := RolledBack(ContractErrorPrefix + ids.msg);
      store.Rollback();
      return;
    }
    PlanForOutcome(live, PlanKey(Str(row.plano)), oracle.planoValor.value, freshId);
    fate := ContractGates(store, row, oracle, clienteId, ids.value.0, ids.value.1);
  }

  /**
   * `float(row['Plano Valor'])`, `get_or_create_plano` and `get_status_id`: the plan's and the
   * status's ids, or the first failure. On success the open transaction holds the plan.
   */
  method LookupIds(store: Store, plano: string, status: string, oracle: ImportOracle) returns (ids: Result<(nat, nat)>)
    requires store.Valid()
    modifies store
    ensures store.Valid() && store.committed == old(store.committed)
    ensures ids.Err? <==> LookupFault(oracle).Some?
    ensures ids.Err? ==> ids.msg == LookupFault(oracle).value
    ensures ids.Ok? ==>
              var p := PlanFor(old(store.Live()), PlanKey(plano), oracle.planoValor.value, old(store.nextId));
              store.Live() == p.0 && ids.value == (p.1, StatusIdOf(store.statuses, status))
  {
    if oracle.planoValor.Err? {
      return Err(oracle.planoValor.msg);
    }
    var planoId := store.GetOrCreatePlano(plano, oracle.planoValor.value, oracle.planFault);
    if planoId.Err? {
      return Err(planoId.msg);
    }
    var statusId := store.GetStatusId(status, oracle.statusFault);
    if statusId.Err? {
      return Err(statusId.msg);
    }
    ids := Ok((planoId.value, statusId.value));
  }

  /**
   * The due-day, CEP and street gates, then the contract insert and the commit, for a row whose
   * client, plan and status ids are known.
   */
  method ContractGates(store: Store, row: SheetRow, oracle: ImportOracle, clienteId: nat, planoId: nat, statusId: nat)
    returns (fate: Fate)
    requires store.Valid()
    modifies store
    ensures store.Valid() && store.InSync()
    ensures fate == GateFate(CleanContract(row), oracle)
    ensures (fate.RolledBack? || fate.CommitFailed?) ==> store.committed == old(store.committed)
    ensures (fate.Imported? || fate.DuplicateContract?) ==>
              ContractFieldsPresent(CleanContract(row))
              && store.committed
                 == old(store.Live()).(contracts := old(store.contracts)
                                        + (if oracle.contract.Inserted?
                                           then [RowContract(row, clienteId, planoId, statusId)] else []))
  {
    var dia := ValidateDiaVencimento(row.vencimento);
    if dia.None? {
      fate := RolledBack(DueDayMotive);
      store.Rollback();
      return;
    }
    var cep := CleanCep(row.cep);
    var uf := NormalizeUf(row.uf);
    var logradouro := EncodeString(row.endereco, Some(255));
    var isento := Isento(row.isento);
    if cep.None? {
      fate := RolledBack(CepMotive);
      store.Rollback();
      return;
    }
    if logradouro.None? {
      fate := RolledBack(StreetMotive);
      store.Rollback();
      return;
    }

    var contract := Contract(clienteId, planoId, dia.value, isento, logradouro.value,
                             EncodeString(row.numero, Some(15)), EncodeString(row.bairro, Some(255)),
                             EncodeString(row.cidade, Some(255)), EncodeString(row.complemento, Some(500)),
                             cep.value, uf, statusId);
    assert contract == RowContract(row, clienteId, planoId, statusId);
    fate := InsertAndCommit(store, contract, oracle);
  }

  /**
   * The contract insert and the commit that ends the row. A failed insert rolls back; a failed
   * commit rolls back too, whether or not the insert returned a row; otherwise the open
   * transaction, with the contract appended when it was inserted, becomes the committed state.
   */
  method InsertAndCommit(store: Store, contract: Contract, oracle: ImportOracle) returns (fate: Fate)
    requires store.Valid()
    modifies store
    ensures store.Valid() && store.InSync()
    ensures fate == InsertFate(oracle)
    ensures (fate.RolledBack? || fate.CommitFailed?) ==> store.committed == old(store.committed)
    ensures (fate.Imported? || fate.DuplicateContract?) ==>
              store.committed == old(store.Live()).(contracts := old(store.contracts)
                                                     + (if oracle.contract.Inserted? then [contract] else []))
  {
    var insert := store.InsertContract(contract, oracle.contract);
    if insert.Err? {
      fate := RolledBack(ContractErrorPrefix + insert.msg);
      store.Rollback();
      return;
    }
    var commit := store.Commit(oracle.commitFault);
    if commit.Err? {
      fate := CommitFailed(insert.value, CommitErrorPrefix + commit.msg);
      store.Rollback();
      return;
    }
    fate := if insert.value then Imported else DuplicateContract;
  }

  // ---------------------------------------------------------------- the row loop

  /** The fate of every row, each against its own oracle. */
  function Fates(rows: seq<SheetRow>, oracles: seq<ImportOracle>): (fates: seq<Fate>)
    requires |rows| == |oracles|
    ensures |fates| == |rows|
    ensures forall i :: 0 <= i < |rows| ==> fates[i] == RowFate(rows[i], oracles[i])
  {
    seq(|rows|, i requires 0 <= i < |rows| => RowFate(rows[i], oracles[i]))
  }

  /** The row goes to the imported report (`imported`) or to the error report (`!imported`). */
  predicate OnReport(f: Fate, imported: bool) {
    if imported then InSuccess(f) else InErrors(f)
  }

  /** A report line: the row with its motive, which is empty on the imported report. */
  function Entry(index: nat, row: SheetRow, f: Fate, imported: bool): ImportReport
    requires OnReport(f, imported)
  {
    ImportReport(index, row, if imported then "" else Motive(f))
  }

  /** One of the two reports over the first `n` rows, in row order. */
  function Report(rows: seq<SheetRow>, fates: seq<Fate>, n: nat, imported: bool): (r: seq<ImportReport>)
    requires n <= |rows| == |fates|
    ensures |r| <= n
  {
    if n == 0 then []
    else Report(rows, fates, n - 1, imported)
         + (if OnReport(fates[n - 1], imported) then [Entry(n - 1, rows[n - 1], fates[n - 1], imported)] else [])
  }

  /** Every line of a report is one of the first `n` rows that belongs on it, with its motive. */
  lemma {:induction false} ReportEntries(rows: seq<SheetRow>, fates: seq<Fate>, n: nat, imported: bool)
    requires n <= |rows| == |fates|
    ensures forall j :: 0 <= j < |Report(rows, fates, n, imported)| ==>
              var e := Report(rows, fates, n, imported)[j];
              e.index < n && OnReport(fates[e.index], imported) && e == Entry(e.index, rows[e.index], fates[e.index], imported)
  {
    if n > 0 {
      ReportEntries(rows, fates, n - 1, imported);
      var prev, r := Report(rows, fates, n - 1, imported), Report(rows, fates, n, imported);
      if OnReport(fates[n - 1], imported) {
        assert r == prev + [Entry(n - 1, rows[n - 1], fates[n - 1], imported)];
        assert r[|prev|] == Entry(n - 1, rows[n - 1], fates[n - 1], imported);
      } else {
        assert r == prev;
      }
    }
  }

  /** A report lists its rows in increasing row order, so no row twice. */
  lemma {:induction false} ReportOrdered(rows: seq<SheetRow>, fates: seq<Fate>, n: nat, imported: bool)
    requires n <= |rows| == |fates|
    ensures forall j, k :: 0 <= j < k < |Report(rows, fates, n, imported)| ==>
              Report(rows, fates, n, imported)[j].index < Report(rows, fates, n, imported)[k].index
  {
    if n > 0 {
      ReportOrdered(rows, fates, n - 1, imported);
      ReportEntries(rows, fates, n - 1, imported);
      var prev, r := Report(rows, fates, n - 1, imported), Report(rows, fates, n, imported);
      if OnReport(fates[n - 1], imported) {
        assert r == prev + [Entry(n - 1, rows[n - 1], fates[n - 1], imported)];
      } else {
        assert r == prev;
      }
    }
  }

  /** Every one of the first `n` rows that belongs on a report is listed on it. */
  lemma {:induction false} ReportComplete(rows: seq<SheetRow>, fates: seq<Fate>, n: nat, imported: bool, i: nat)
    requires n <= |rows| == |fates| && i < n && OnReport(fates[i], imported)
    ensures exists j :: 0 <= j < |Report(rows, fates, n, imported)| && Report(rows, fates, n, imported)[j].index == i
  {
    var prev, r := Report(rows, fates, n - 1, imported), Report(rows, fates, n, imported);
    if i == n - 1 {
      assert r[|prev|].index == i;
    } else {
      ReportComplete(rows, fates, n - 1, imported, i);
      var j :| 0 <= j < |prev| && prev[j].index == i;
      assert r[j] == prev[j];
    }
  }

  /** Whether each row's client was counted. */
  function Counted(rows: seq<SheetRow>, oracles: seq<ImportOracle>): (cs: seq<bool>)
    requires |rows| == |oracles|
    ensures |cs| == |rows|
    ensures forall i :: 0 <= i < |rows| ==> cs[i] == ClientCounted(Clean(rows[i]), oracles[i])
  {
    seq(|rows|, i requires 0 <= i < |rows| => ClientCounted(Clean(rows[i]), oracles[i]))
  }

  /** How many contact inserts of each row returned a row. */
  function ContactCounts(rows: seq<SheetRow>, oracles: seq<ImportOracle>): (ks: seq<nat>)
    requires |rows| == |oracles|
    ensures |ks| == |rows|
    ensures forall i :: 0 <= i < |rows| ==> ks[i] == InsertedCount(ContactSlots(rows[i]), ContactOutcomes(oracles[i]), 3)
  {
    seq(|rows|, i requires 0 <= i < |rows| => InsertedCount(ContactSlots(rows[i]), ContactOutcomes(oracles[i]), 3))
  }

  /** The five counters after the first `n` rows, from zero, given each row's fate, client flag and contact count. */
  function TallyOf(fates: seq<Fate>, counted: seq<bool>, contacts: seq<nat>, n: nat): Totals
    requires n <= |fates| == |counted| == |contacts|
  {
    if n == 0 then Totals(0, 0, 0, 0, 0)
    else Tally(TallyOf(fates, counted, contacts, n - 1), fates[n - 1], counted[n - 1], contacts[n - 1])
  }

  /** A row on the imported report had its client counted. */
  lemma ImportedRowsCounted(rows: seq<SheetRow>, oracles: seq<ImportOracle>)
    requires |rows| == |oracles|
    ensures forall i :: 0 <= i < |rows| && InSuccess(Fates(rows, oracles)[i]) ==> Counted(rows, oracles)[i]
  {
    forall i | 0 <= i < |rows|
      ensures InSuccess(Fates(rows, oracles)[i]) ==> Counted(rows, oracles)[i]
    {
      CountersMean(Clean(rows[i]), oracles[i]);
    }
  }

  /**
   * The error counter is the length of the error report and both contract counters the length of
   * the imported report, which never exceeds the client counter when every imported row had its
   * client counted.
   */
  lemma {:induction false} TallyMatchesReports(rows: seq<SheetRow>, fates: seq<Fate>, counted: seq<bool>,
                                               contacts: seq<nat>, n: nat)
    requires n <= |rows| == |fates| == |counted| == |contacts|
    requires forall i :: 0 <= i < n && InSuccess(fates[i]) ==> counted[i]
    ensures var t := TallyOf(fates, counted, contacts, n);
            t.erros == |Report(rows, fates, n, false)|
            && t.contratos == t.importados == |Report(rows, fates, n, true)| <= t.clientes
  {
    if n > 0 {
      TallyMatchesReports(rows, fates, counted, contacts, n - 1);
    }
  }

  /**
   * `for index, row in df.iterrows():` — every row goes through the loop body against its own
   * oracle, one transaction per row. The reports and counters are those of the rows' fates; the
   * error counter is the length of the error report, both contract counters the length of the
   * imported report, which never exceeds the client counter; no row changes a stored plan.
   */
  method RunImport(store: Store, rows: seq<SheetRow>, oracles: seq<ImportOracle>)
    returns (totals: Totals, errors: seq<ImportReport>, success: seq<ImportReport>)
    requires |rows| == |oracles| && store.Valid() && store.InSync()
    modifies store
    ensures store.Valid() && store.InSync()
    ensures errors == Report(rows, Fates(rows, oracles), |rows|, false)
    ensures success == Report(rows, Fates(rows, oracles), |rows|, true)
    ensures totals == TallyOf(Fates(rows, oracles), Counted(rows, oracles), ContactCounts(rows, oracles), |rows|)
    ensures totals.erros == |errors| && totals.contratos == totals.importados == |success| <= totals.clientes
    ensures PricesKept(old(store.committed), store.committed)
  {
    ghost var fates, counted, contacts := Fates(rows, oracles), Counted(rows, oracles), ContactCounts(rows, oracles);
    totals, errors, success := Totals(0, 0, 0, 0, 0), [], [];
    for i := 0 to |rows|
      invariant store.Valid() && store.InSync()
      invariant errors == Report(rows, fates, i, false) && success == Report(rows, fates, i, true)
      invariant totals == TallyOf(fates, counted, contacts, i)
      invariant PricesKept(old(store.committed), store.committed)
    {
      var fate;
      fate, totals, errors, success := ProcessRow(store, i, rows[i], oracles[i], totals, errors, success);
    }
    ImportedRowsCounted(rows, oracles);
    TallyMatchesReports(rows, fates, counted, contacts, |rows|);
  }
}
