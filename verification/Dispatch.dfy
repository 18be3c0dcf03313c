/** Which messages stand for which action, in plain numbers: message IDs, function
    codes and structure sizes. */
module Dispatch {
  import opened Types
  import opened Machine

  /** Message IDs decide first. Requests and ticks have no length to get wrong. */
  lemma Routed(cfg: Config, m: Message)
    ensures Classify(cfg, m) == SendHk <==> m.mid == cfg.hkMid
    ensures Classify(cfg, m) == Tick <==> m.mid == cfg.blinkMid
    ensures Classify(cfg, m) == BadMid(m.mid) <==> m.mid != cfg.cmdMid && m.mid != cfg.hkMid && m.mid != cfg.blinkMid
    ensures Classify(cfg, m).BadMid? ==> Classify(cfg, m).mid == m.mid
  {
  }

  lemma CommandsWithoutArguments(cfg: Config, m: Message)
    ensures Classify(cfg, m) == Noop <==> m.mid == cfg.cmdMid && m.code == 0 && m.size == cfg.noArgsSize
    ensures Classify(cfg, m) == ResetCounters <==> m.mid == cfg.cmdMid && m.code == 1 && m.size == cfg.noArgsSize
    ensures Classify(cfg, m) == Process <==> m.mid == cfg.cmdMid && m.code == 2 && m.size == cfg.noArgsSize
    ensures Classify(cfg, m) == ResetAll <==> m.mid == cfg.cmdMid && m.code == 4 && m.size == cfg.noArgsSize
    ensures Classify(cfg, m) == EnableAll <==> m.mid == cfg.cmdMid && m.code == 9 && m.size == cfg.noArgsSize
    ensures Classify(cfg, m) == DisableAll <==> m.mid == cfg.cmdMid && m.code == 10 && m.size == cfg.noArgsSize
  {
  }

  lemma CommandsOnOneBlinker(cfg: Config, m: Message, i: uint16)
    ensures Classify(cfg, m) == Reset(i) <==>
      m.mid == cfg.cmdMid && m.code == 5 && m.size == cfg.specSize && m.word1 == i < cfg.n
    ensures Classify(cfg, m) == Report(i) <==>
      m.mid == cfg.cmdMid && m.code == 6 && m.size == cfg.specSize && m.word1 == i < cfg.n
    ensures Classify(cfg, m) == Enable(i) <==>
      m.mid == cfg.cmdMid && m.code == 7 && m.size == cfg.specSize && m.word1 == i < cfg.n
    ensures Classify(cfg, m) == Disable(i) <==>
      m.mid == cfg.cmdMid && m.code == 8 && m.size == cfg.specSize && m.word1 == i < cfg.n
    ensures Classify(cfg, m) == BadNumber(i) <==>
      m.mid == cfg.cmdMid && 5 <= m.code <= 8 && m.size == cfg.specSize && m.word1 == i >= cfg.n
  {
  }

  lemma CommandsWithPayload(cfg: Config, m: Message, i: uint16, j: uint16, p: Param)
    ensures Classify(cfg, m) == Display(p) <==>
      m.mid == cfg.cmdMid && m.code == 3 && m.size == cfg.displaySize && m.param == p
    ensures Classify(cfg, m) == Swap(i, j) <==>
      m.mid == cfg.cmdMid && m.code == 11 && m.size == cfg.swapSize
      && m.word1 == i < cfg.n && m.word2 == j < cfg.n
    ensures Classify(cfg, m) == BadPair(i, j) <==>
      m.mid == cfg.cmdMid && m.code == 11 && m.size == cfg.swapSize
      && m.word1 == i && m.word2 == j && (i >= cfg.n || j >= cfg.n)
  {
  }

  lemma CommandsRefused(cfg: Config, m: Message, mid: uint32, code: uint16, size: nat, expected: nat)
    ensures Classify(cfg, m) == BadCode(code) <==> m.mid == cfg.cmdMid && m.code == code > 11
    ensures Classify(cfg, m) == BadLength(mid, code, size, expected) <==>
      && m.mid == cfg.cmdMid == mid && m.code == code && m.size == size != expected
      && (|| (code in {0, 1, 2, 4, 9, 10} && expected == cfg.noArgsSize)
          || (code == 3 && expected == cfg.displaySize)
          || (5 <= code <= 8 && expected == cfg.specSize)
          || (code == 11 && expected == cfg.swapSize))
  {
  }
}
