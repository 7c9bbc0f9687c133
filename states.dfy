/** The fixed table of the 27 Brazilian federative units, name to two-letter code, in source order. */
module States {
  import opened Strings
  import opened Wrappers

  const UfMapping: seq<(string, string)> := [
    ("ACRE", "AC"), ("ALAGOAS", "AL"), ("AMAPÁ", "AP"), ("AMAZONAS", "AM"), ("BAHIA", "BA"),
    ("CEARÁ", "CE"), ("DISTRITO FEDERAL", "DF"), ("ESPÍRITO SANTO", "ES"), ("GOIÁS", "GO"),
    ("MARANHÃO", "MA"), ("MATO GROSSO", "MT"), ("MATO GROSSO DO SUL", "MS"), ("MINAS GERAIS", "MG"),
    ("PARÁ", "PA"), ("PARAÍBA", "PB"), ("PARANÁ", "PR"), ("PERNAMBUCO", "PE"), ("PIAUÍ", "PI"),
    ("RIO DE JANEIRO", "RJ"), ("RIO GRANDE DO NORTE", "RN"), ("RIO GRANDE DO SUL", "RS"),
    ("RONDÔNIA", "RO"), ("RORAIMA", "RR"), ("SANTA CATARINA", "SC"), ("SÃO PAULO", "SP"),
    ("SERGIPE", "SE"), ("TOCANTINS", "TO")
  ]

  /** `s in UF_MAPPING.values()` */
  predicate IsCode(s: string) {
    exists i :: 0 <= i < |UfMapping| && UfMapping[i].1 == s
  }

  /** `s in UF_MAPPING` */
  predicate IsName(s: string) {
    exists i :: 0 <= i < |UfMapping| && UfMapping[i].0 == s
  }

  /** `UF_MAPPING.get(name)`, searching the table from entry `i` on. */
  function CodeOf(name: string, i: nat := 0): (r: Option<string>)
    requires i <= |UfMapping|
    ensures r.None? <==> forall j :: i <= j < |UfMapping| ==> UfMapping[j].0 != name
    ensures r.Some? ==> exists j :: i <= j < |UfMapping| && UfMapping[j].0 == name && UfMapping[j].1 == r.value
    decreases |UfMapping| - i
  {
    if i == |UfMapping| then None
    else if UfMapping[i].0 == name then Some(UfMapping[i].1)
    else CodeOf(name, i + 1)
  }

  /** The table has 27 entries; every code is two characters long and every name longer. */
  lemma TableShape()
    ensures |UfMapping| == 27
    ensures forall i :: 0 <= i < |UfMapping| ==> |UfMapping[i].1| == 2 && |UfMapping[i].0| > 2
  {
  }
}
