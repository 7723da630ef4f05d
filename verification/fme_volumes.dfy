/**
 * The curriculum of "Fundamentos de Matemática Elementar": eleven volumes of ten
 * topics each, and the lookups over them.
 */
module FmeVolumes {
  import opened Wrappers
  import opened Curriculum
  import opened Text

  datatype Topic = Topic(id: string, name: string)

  /** A volume as the data file declares it: a flat list of topics, no chapters, no durations. */
  datatype Volume = Volume(id: string, number: int, title: string, description: string, priority: Priority, topics: seq<Topic>)

  /** The catalogue, in the order the pages list it. */
  const FmeVolumes: seq<Volume> := [Vol1, Vol2, Vol3, Vol4, Vol5, Vol6, Vol7, Vol8, Vol9, Vol10, Vol11]

  const Vol1: Volume :=
    Volume("vol1", 1, "Conjuntos e Funções", "Fundamentos de conjuntos e funções reais", Essential, [
      Topic("vol1-1", "Conjuntos"),
      Topic("vol1-2", "Operações com Conjuntos"),
      Topic("vol1-3", "Relações"),
      Topic("vol1-4", "Funções"),
      Topic("vol1-5", "Tipos de Funções"),
      Topic("vol1-6", "Função Composta"),
      Topic("vol1-7", "Função Inversa"),
      Topic("vol1-8", "Funções Polinomiais"),
      Topic("vol1-9", "Funções Racionais"),
      Topic("vol1-10", "Inequações")
    ])

  const Vol2: Volume :=
    Volume("vol2", 2, "Logaritmos", "Logaritmos e exponenciais", Essential, [
      Topic("vol2-1", "Potências e Raízes"),
      Topic("vol2-2", "Função Exponencial"),
      Topic("vol2-3", "Equações Exponenciais"),
      Topic("vol2-4", "Logaritmos - Definição"),
      Topic("vol2-5", "Propriedades dos Logaritmos"),
      Topic("vol2-6", "Mudança de Base"),
      Topic("vol2-7", "Função Logarítmica"),
      Topic("vol2-8", "Equações Logarítmicas"),
      Topic("vol2-9", "Inequações Exponenciais e Logarítmicas"),
      Topic("vol2-10", "Aplicações de Logaritmos")
    ])

  const Vol3: Volume :=
    Volume("vol3", 3, "Trigonometria", "Trigonometria no triângulo retângulo e círculo trigonométrico", Essential, [
      Topic("vol3-1", "Trigonometria no Triângulo Retângulo"),
      Topic("vol3-2", "Razões Trigonométricas"),
      Topic("vol3-3", "Ângulos Notáveis"),
      Topic("vol3-4", "Círculo Trigonométrico"),
      Topic("vol3-5", "Funções Trigonométricas"),
      Topic("vol3-6", "Gráficos de Funções Trigonométricas"),
      Topic("vol3-7", "Identidades Trigonométricas"),
      Topic("vol3-8", "Equações Trigonométricas"),
      Topic("vol3-9", "Inequações Trigonométricas"),
      Topic("vol3-10", "Aplicações da Trigonometria")
    ])

  const Vol4: Volume :=
    Volume("vol4", 4, "Sequências", "Progressões aritmética e geométrica", Essential, [
      Topic("vol4-1", "Sequências Numéricas"),
      Topic("vol4-2", "Progressão Aritmética (PA)"),
      Topic("vol4-3", "Termo Geral da PA"),
      Topic("vol4-4", "Soma dos Termos da PA"),
      Topic("vol4-5", "Progressão Geométrica (PG)"),
      Topic("vol4-6", "Termo Geral da PG"),
      Topic("vol4-7", "Soma dos Termos da PG"),
      Topic("vol4-8", "Série Geométrica Infinita"),
      Topic("vol4-9", "Aplicações de PA e PG"),
      Topic("vol4-10", "Problemas com Sequências")
    ])

  const Vol5: Volume :=
    Volume("vol5", 5, "Combinatória", "Análise combinatória e contagem", Important, [
      Topic("vol5-1", "Princípio Fundamental da Contagem"),
      Topic("vol5-2", "Fatorial"),
      Topic("vol5-3", "Arranjos"),
      Topic("vol5-4", "Permutações"),
      Topic("vol5-5", "Combinações"),
      Topic("vol5-6", "Binômio de Newton"),
      Topic("vol5-7", "Triângulo de Pascal"),
      Topic("vol5-8", "Permutações com Repetição"),
      Topic("vol5-9", "Combinações com Repetição"),
      Topic("vol5-10", "Problemas de Contagem")
    ])

  const Vol6: Volume :=
    Volume("vol6", 6, "Probabilidade", "Teoria da probabilidade e cálculo de probabilidades", Important, [
      Topic("vol6-1", "Espaço Amostral"),
      Topic("vol6-2", "Eventos"),
      Topic("vol6-3", "Definição de Probabilidade"),
      Topic("vol6-4", "Propriedades da Probabilidade"),
      Topic("vol6-5", "Probabilidade Condicional"),
      Topic("vol6-6", "Eventos Independentes"),
      Topic("vol6-7", "Teorema da Multiplicação"),
      Topic("vol6-8", "Teorema da Probabilidade Total"),
      Topic("vol6-9", "Teorema de Bayes"),
      Topic("vol6-10", "Aplicações de Probabilidade")
    ])

  const Vol7: Volume :=
    Volume("vol7", 7, "Estatística", "Estatística descritiva e análise de dados", Important, [
      Topic("vol7-1", "Conceitos Básicos de Estatística"),
      Topic("vol7-2", "Coleta e Organização de Dados"),
      Topic("vol7-3", "Distribuição de Frequências"),
      Topic("vol7-4", "Gráficos Estatísticos"),
      Topic("vol7-5", "Medidas de Tendência Central"),
      Topic("vol7-6", "Medidas de Dispersão"),
      Topic("vol7-7", "Variância e Desvio Padrão"),
      Topic("vol7-8", "Correlação e Regressão"),
      Topic("vol7-9", "Distribuição Normal"),
      Topic("vol7-10", "Aplicações de Estatística")
    ])

  const Vol8: Volume :=
    Volume("vol8", 8, "Limites", "Limites de funções e continuidade", Complementary, [
      Topic("vol8-1", "Conceito de Limite"),
      Topic("vol8-2", "Limite de uma Função"),
      Topic("vol8-3", "Propriedades dos Limites"),
      Topic("vol8-4", "Limites Laterais"),
      Topic("vol8-5", "Limites Infinitos"),
      Topic("vol8-6", "Limites no Infinito"),
      Topic("vol8-7", "Continuidade de Funções"),
      Topic("vol8-8", "Teorema do Valor Intermediário"),
      Topic("vol8-9", "Assíntotas"),
      Topic("vol8-10", "Aplicações de Limites")
    ])

  const Vol9: Volume :=
    Volume("vol9", 9, "Derivadas", "Derivadas e aplicações", Complementary, [
      Topic("vol9-1", "Conceito de Derivada"),
      Topic("vol9-2", "Derivada de uma Função"),
      Topic("vol9-3", "Regras de Derivação"),
      Topic("vol9-4", "Derivada da Função Composta"),
      Topic("vol9-5", "Derivadas de Funções Elementares"),
      Topic("vol9-6", "Derivadas Sucessivas"),
      Topic("vol9-7", "Máximos e Mínimos"),
      Topic("vol9-8", "Análise de Funções"),
      Topic("vol9-9", "Aplicações de Derivadas"),
      Topic("vol9-10", "Taxa de Variação")
    ])

  const Vol10: Volume :=
    Volume("vol10", 10, "Integrais", "Integrais e cálculo de áreas", Complementary, [
      Topic("vol10-1", "Conceito de Integral"),
      Topic("vol10-2", "Integral Indefinida"),
      Topic("vol10-3", "Propriedades da Integral"),
      Topic("vol10-4", "Técnicas de Integração"),
      Topic("vol10-5", "Integração por Partes"),
      Topic("vol10-6", "Integração por Substituição"),
      Topic("vol10-7", "Integral Definida"),
      Topic("vol10-8", "Teorema Fundamental do Cálculo"),
      Topic("vol10-9", "Cálculo de Áreas"),
      Topic("vol10-10", "Aplicações de Integrais")
    ])

  const Vol11: Volume :=
    Volume("vol11", 11, "Geometria", "Geometria analítica e espacial", Important, [
      Topic("vol11-1", "Geometria Analítica Plana"),
      Topic("vol11-2", "Ponto e Reta"),
      Topic("vol11-3", "Equação da Reta"),
      Topic("vol11-4", "Circunferência"),
      Topic("vol11-5", "Cônicas"),
      Topic("vol11-6", "Elipse"),
      Topic("vol11-7", "Hipérbole"),
      Topic("vol11-8", "Parábola"),
      Topic("vol11-9", "Geometria Espacial"),
      Topic("vol11-10", "Sólidos Geométricos")
    ])

  /** The position of the first volume with this id, if any. */
  function FindVolumeIndex(volumes: seq<Volume>, id: string): (r: Option<nat>)
    ensures r.Some? ==> r.value < |volumes| && volumes[r.value].id == id
    ensures r.Some? ==> forall j :: 0 <= j < r.value ==> volumes[j].id != id
    ensures r.None? <==> forall j :: 0 <= j < |volumes| ==> volumes[j].id != id
  {
    if volumes == [] then None
    else if volumes[0].id == id then Some(0)
    else match FindVolumeIndex(volumes[1..], id)
      case None => None
      case Some(i) => Some(i + 1)
  }

  /** `volumes.find((vol) => vol.id === id)`: the first volume with that id, or `undefined`. */
  function VolumeById(volumes: seq<Volume>, id: string): (r: Option<Volume>)
    ensures r.None? <==> forall j :: 0 <= j < |volumes| ==> volumes[j].id != id
    ensures r.Some? ==> r.value in volumes && r.value.id == id
    ensures r.Some? ==> exists i :: (0 <= i < |volumes| && volumes[i] == r.value
      && forall j :: 0 <= j < i ==> volumes[j].id != id)
  {
    match FindVolumeIndex(volumes, id)
    case None => None
    case Some(i) => Some(volumes[i])
  }

  /** `getVolumeById(id)`: the first volume of the catalogue with that id, or `undefined`. */
  function GetVolumeById(id: string): (r: Option<Volume>)
    ensures r.None? <==> forall j :: 0 <= j < |FmeVolumes| ==> FmeVolumes[j].id != id
    ensures r.Some? ==> r.value in FmeVolumes && r.value.id == id
  {
    VolumeById(FmeVolumes, id)
  }

  /** The topics of the volume with that id, or none for an unknown id. */
  function TopicsById(volumes: seq<Volume>, volumeId: string): (r: seq<Topic>)
    ensures VolumeById(volumes, volumeId).None? ==> r == []
    ensures VolumeById(volumes, volumeId).Some? ==> r == VolumeById(volumes, volumeId).value.topics
  {
    match VolumeById(volumes, volumeId)
    case None => []
    case Some(v) => v.topics
  }

  /** `getTopicsByVolume(id)`: the topics of that catalogue volume, or none for an unknown id. */
  function GetTopicsByVolume(volumeId: string): (r: seq<Topic>)
    ensures GetVolumeById(volumeId).None? ==> r == []
    ensures GetVolumeById(volumeId).Some? ==> r == GetVolumeById(volumeId).value.topics
  {
    TopicsById(FmeVolumes, volumeId)
  }

  datatype VolumeTopics = VolumeTopics(volumeNumber: int, volumeTitle: string, topics: seq<Topic>)

  /** `getAllTopics()`: one entry per volume, in catalogue order. */
  function GetAllTopics(): (r: seq<VolumeTopics>)
    ensures |r| == |FmeVolumes|
    ensures forall i :: 0 <= i < |r| ==>
      r[i] == VolumeTopics(FmeVolumes[i].number, FmeVolumes[i].title, FmeVolumes[i].topics)
  {
    seq(|FmeVolumes|, i requires 0 <= i < |FmeVolumes| =>
      VolumeTopics(FmeVolumes[i].number, FmeVolumes[i].title, FmeVolumes[i].topics))
  }

  predicate HasPrefix(s: string, prefix: string) {
    |prefix| <= |s| && s[..|prefix|] == prefix
  }

  /** The shape every page relies on for the volume at position `n - 1`: id `vol<n>`, number `n`, ten topics, topic ids prefixed by `<volume id>-`. */
  predicate VolumeShaped(v: Volume, n: nat) {
    && v.id == "vol" + NatToString(n)
    && v.number == n
    && |v.topics| == 10
    && forall j :: 0 <= j < 10 ==> HasPrefix(v.topics[j].id, v.id + "-")
  }

  predicate WellNumbered(volumes: seq<Volume>) {
    forall i :: 0 <= i < |volumes| ==> VolumeShaped(volumes[i], i + 1)
  }

  predicate DistinctIds(volumes: seq<Volume>) {
    forall i, j :: 0 <= i < j < |volumes| ==> volumes[i].id != volumes[j].id
  }

  lemma Volume1Shape()
    ensures VolumeShaped(Vol1, 1)
  {
  }

  lemma Volume2Shape()
    ensures VolumeShaped(Vol2, 2)
  {
  }

  lemma Volume3Shape()
    ensures VolumeShaped(Vol3, 3)
  {
  }

  lemma Volume4Shape()
    ensures VolumeShaped(Vol4, 4)
  {
  }

  lemma Volume5Shape()
    ensures VolumeShaped(Vol5, 5)
  {
  }

  lemma Volume6Shape()
    ensures VolumeShaped(Vol6, 6)
  {
  }

  lemma Volume7Shape()
    ensures VolumeShaped(Vol7, 7)
  {
  }

  lemma Volume8Shape()
    ensures VolumeShaped(Vol8, 8)
  {
  }

  lemma Volume9Shape()
    ensures VolumeShaped(Vol9, 9)
  {
  }

  lemma Volume10Shape()
    ensures VolumeShaped(Vol10, 10)
  {
  }

  lemma Volume11Shape()
    ensures VolumeShaped(Vol11, 11)
  {
  }

  /** The catalogue's invariants: eleven volumes numbered in order, distinct ids, and only volumes 8, 9 and 10 complementary. */
  lemma CatalogueShape()
    ensures |FmeVolumes| == 11
    ensures WellNumbered(FmeVolumes)
    ensures DistinctIds(FmeVolumes)
    ensures forall i :: 0 <= i < |FmeVolumes| ==>
      (FmeVolumes[i].priority == Complementary <==> FmeVolumes[i].number in {8, 9, 10})
  {
    CatalogueNumbered();
    NumberedDistinct(FmeVolumes);
  }

  lemma CatalogueNumbered()
    ensures |FmeVolumes| == 11
    ensures WellNumbered(FmeVolumes)
  {
    Volume1Shape(); Volume2Shape(); Volume3Shape(); Volume4Shape();
    Volume5Shape(); Volume6Shape(); Volume7Shape(); Volume8Shape();
    Volume9Shape(); Volume10Shape(); Volume11Shape();
  }

  /** Ids `vol<n>` for different numbers `n` are different. */
  lemma NumberedDistinct(volumes: seq<Volume>)
    requires WellNumbered(volumes)
    ensures DistinctIds(volumes)
  {
    forall i, j | 0 <= i < j < |volumes| ensures volumes[i].id != volumes[j].id {
      assert VolumeShaped(volumes[i], i + 1) && VolumeShaped(volumes[j], j + 1);
      if volumes[i].id == volumes[j].id {
        assert volumes[i].id[3..] == NatToString(i + 1);
        assert volumes[j].id[3..] == NatToString(j + 1);
        NatToStringInjective(i + 1, j + 1);
      }
    }
  }

  /** With distinct ids, the lookup finds exactly the volume with that id. */
  lemma GetVolumeByIdExact(i: nat)
    requires i < |FmeVolumes|
    ensures GetVolumeById(FmeVolumes[i].id) == Some(FmeVolumes[i])
  {
    CatalogueShape();
  }

  /** No catalogue volume has the empty id, so clearing a selection leaves no volume selected. */
  lemma EmptyIdUnknown()
    ensures GetVolumeById("").None?
  {
    CatalogueShape();
    forall j | 0 <= j < |FmeVolumes| ensures FmeVolumes[j].id != "" {
      assert VolumeShaped(FmeVolumes[j], j + 1);
    }
  }
}
