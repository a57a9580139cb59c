/**
 * The store configuration lookup (`lojas.py`): a store name selects the data
 * files of its freezer rooms and the power in kW of their defrost heaters.
 * Python's `None` keys and values of the fallback are `Option`s here.
 */
module Lojas {
  import opened Wrappers

  const Bangu: string := "Atacadão Bangu RJ"
  const Palmas: string := "Atacadão Palmas TO"

  /** The files (`ARQUIVOS`) and defrost powers (`POTENCIAS`) of a store. */
  type Files = map<Option<string>, Option<string>>
  type Powers = map<Option<string>, Option<real>>

  /**
   * `lojas_selecionadas`: Bangu has two files and two powers under different
   * names, Palmas three files and three powers under the same names, and any
   * other store gets the single `{None: None}` entry in both maps. Every
   * power that is given is 10 kW.
   */
  function LojasSelecionadas(loja: string): (r: (Files, Powers))
    ensures loja == Bangu ==>
      && r.0.Keys == {Some("Cam Congelados Eco2Pack L1"), Some("Cam Congelados Eco2Pack L2")}
      && r.1.Keys == {Some("Cam Cong L1"), Some("Cam Cong L2")}
      && r.0.Keys !! r.1.Keys
    ensures loja == Palmas ==>
      r.0.Keys == r.1.Keys == {Some("Cam Cong L1"), Some("Cam Cong L2"), Some("Cam Cong L3")}
    ensures loja != Bangu && loja != Palmas ==> r.0 == map[None := None] && r.1 == map[None := None]
    ensures forall k :: k in r.1 && r.1[k].Some? ==> r.1[k].value == 10.0
    ensures forall k :: k in r.0 ==> (k.Some? <==> r.0[k].Some?) && (k.Some? <==> loja == Bangu || loja == Palmas)
    ensures forall k :: k in r.1 ==> (k.Some? <==> r.1[k].Some?) && (k.Some? <==> loja == Bangu || loja == Palmas)
  {
    if loja == Bangu then
      (map[Some("Cam Congelados Eco2Pack L1") := Some("data/atacadao_bangu_RJ/L1.csv"),
           Some("Cam Congelados Eco2Pack L2") := Some("data/atacadao_bangu_RJ/L2.csv")],
       map[Some("Cam Cong L1") := Some(10.0),
           Some("Cam Cong L2") := Some(10.0)])
    else if loja == Palmas then
      (map[Some("Cam Cong L1") := Some("data/atacadao_palmas_TO/L1.csv"),
           Some("Cam Cong L2") := Some("data/atacadao_palmas_TO/L2.csv"),
           Some("Cam Cong L3") := Some("data/atacadao_palmas_TO/L3.csv")],
       map[Some("Cam Cong L1") := Some(10.0),
           Some("Cam Cong L2") := Some(10.0),
           Some("Cam Cong L3") := Some(10.0)])
    else
      (map[None := None], map[None := None])
  }

  /** Bangu lists two rooms and Palmas three; every store has at least one entry. */
  lemma EntryCounts(loja: string)
    ensures loja == Bangu ==> |LojasSelecionadas(loja).0| == 2 && |LojasSelecionadas(loja).1| == 2
    ensures loja == Palmas ==> |LojasSelecionadas(loja).0| == 3 && |LojasSelecionadas(loja).1| == 3
    ensures |LojasSelecionadas(loja).0| >= 1 && |LojasSelecionadas(loja).1| >= 1
  {
    var r := LojasSelecionadas(loja);
    if loja == Bangu {
      assert r.0.Keys == {Some("Cam Congelados Eco2Pack L1")} + {Some("Cam Congelados Eco2Pack L2")};
      assert r.1.Keys == {Some("Cam Cong L1")} + {Some("Cam Cong L2")};
    } else if loja == Palmas {
      assert r.0.Keys == {Some("Cam Cong L1")} + {Some("Cam Cong L2")} + {Some("Cam Cong L3")};
    } else {
      assert r.0.Keys == {None} && r.1.Keys == {None};
    }
  }

  /**
   * In Bangu no file name has a power: a lookup of a room's power by its file
   * name finds nothing, while in Palmas every file name finds its power.
   */
  lemma PowerByFileName(loja: string, room: Option<string>)
    requires room in LojasSelecionadas(loja).0
    ensures loja == Bangu ==> room !in LojasSelecionadas(loja).1
    ensures loja == Palmas ==> room in LojasSelecionadas(loja).1 && LojasSelecionadas(loja).1[room] == Some(10.0)
  {
  }
}
