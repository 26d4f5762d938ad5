/** The text each caller builds for its advisory lock. */
module LockKeys {
  import opened Prelude

  /** getWalletLockKey: an absent or empty group id falls back to the wallet's own key. */
  function WalletLockKey(walletId: string, groupId: Option<string>): string {
    if groupId.Some? && groupId.value != "" then "wallet-group:" + groupId.value else "wallet:" + walletId
  }

  /** The scanner and the signing context write the group key out directly. */
  function GroupLockKey(groupId: string): string {
    "wallet-group:" + groupId
  }

  /** All callers lock the same text for the same group, whichever of its wallets they start from,
      and never for two different groups or for a wallet that has none. */
  lemma LockKeysSeparateGroups(w1: string, g1: Option<string>, w2: string, g2: Option<string>)
    ensures g1.Some? && g1.value != "" ==> WalletLockKey(w1, g1) == GroupLockKey(g1.value)
    ensures var grouped1, grouped2 := g1.Some? && g1.value != "", g2.Some? && g2.value != "";
            WalletLockKey(w1, g1) == WalletLockKey(w2, g2) <==>
            grouped1 == grouped2 && if grouped1 then g1.value == g2.value else w1 == w2
  {
    var p, q := "wallet-group:", "wallet:";
    var k1, k2 := WalletLockKey(w1, g1), WalletLockKey(w2, g2);
    if k1 == k2 {
      assert k1[6] == k2[6];
      if g1.Some? && g1.value != "" {
        assert k1[|p|..] == g1.value;
        if g2.Some? && g2.value != "" { assert k2[|p|..] == g2.value; }
      } else {
        assert k1[|q|..] == w1;
        if g2.None? || g2.value == "" { assert k2[|q|..] == w2; }
      }
    }
  }
}
