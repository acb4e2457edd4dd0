/** The seed of the application state and the fixed lists (constants.ts). */
module Constants {
  import opened Types

  /** Login identities and their passwords. Each identity is a cashier
      and owns one register. */
  const UserPasswords: map<string, string> :=
    map["Caja 1" := "caja1", "Caja 2" := "caja2", "Administrador" := "admin274"]

  /** The identities in the order the registers are declared, which is
      the order `Object.keys` and `Object.values` list them in. */
  const Cashiers: seq<string> := ["Caja 1", "Caja 2", "Administrador"]

  const InitialCategories: seq<string> := ["Alimentos", "Bebidas", "Limpieza", "Aseo Personal"]

  /** The ticket number of the first sale. */
  const FirstTicket: nat := 1001

  /** The payment methods in the order they are offered and reported. */
  const PaymentMethods: seq<PaymentMethod> := [Efectivo, Tarjeta, Transferencia]

  const ClosedRegister: CashRegister := CashRegister(false, 0, [], 0, [])

  /** One closed, empty register per identity. */
  function InitialRegisters(): (m: map<string, CashRegister>)
    ensures m.Keys == UserPasswords.Keys
    ensures forall c :: c in m ==> m[c] == ClosedRegister
  {
    map c | c in Cashiers :: ClosedRegister
  }

  lemma CashiersAreTheIdentities()
    ensures |Cashiers| == |UserPasswords.Keys|
    ensures forall i, j :: 0 <= i < j < |Cashiers| ==> Cashiers[i] != Cashiers[j]
    ensures forall c :: c in UserPasswords <==> c in Cashiers
  {
    assert UserPasswords.Keys == {"Caja 1", "Caja 2", "Administrador"};
  }

  /** No cashier is listed twice. */
  lemma CashiersDistinct()
    ensures forall i, j :: 0 <= i < j < |Cashiers| ==> Cashiers[i] != Cashiers[j]
  {
  }

  /** Every identity is in the list of cashiers. */
  lemma IdentityListed(c: string)
    requires c in UserPasswords
    ensures c in Cashiers
  {
  }

  /** The method whose identifier is `id`, if any. */
  function MethodFromId(id: string): (r: Option<PaymentMethod>)
    ensures r.Some? ==> r.value.Id() == id
    ensures r.None? ==> forall m: PaymentMethod :: m.Id() != id
  {
    if id == "efectivo" then Some(Efectivo)
    else if id == "tarjeta" then Some(Tarjeta)
    else if id == "transferencia" then Some(Transferencia)
    else None
  }

  lemma PaymentMethodsListed(m: PaymentMethod)
    ensures m in PaymentMethods
    ensures MethodFromId(m.Id()) == Some(m)
  {
  }
}
