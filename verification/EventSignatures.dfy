/** One name for one event: what pools subscribe to, what the listener recognizes and what the
    migration check skips. */
module EventSignatures {
  import opened Js
  import Subscriptions
  import Migration
  import opened Listener

  lemma Spelled(name: string, params: string)
    requires '(' !in name && name != "" && params != "" && params[0] == '('
    ensures StripParams(name + params) == name
  {
    StripsTo(name, name + params);
  }

  /** Each signature the listener recognizes is an event's name followed by its parameters. */
  lemma SignaturesSpell()
    ensures TRANSFER_SIGNATURE == Subscriptions.TRANSFER + "(address,address,uint256)"
    ensures APPROVAL_SIGNATURE == Subscriptions.APPROVAL + "(address,address,uint256)"
    ensures APPROVAL_FOR_ALL_SIGNATURE == Subscriptions.APPROVAL_FOR_ALL + "(address,address,bool)"
    ensures CREATE_SIGNATURE == Migration.CREATE_EVENT + "(address,string,string,bool,bytes)"
  {
  }

  lemma SignaturesStrip()
    ensures StripParams(TRANSFER_SIGNATURE) == Subscriptions.TRANSFER
    ensures StripParams(APPROVAL_SIGNATURE) == Subscriptions.APPROVAL
    ensures StripParams(APPROVAL_FOR_ALL_SIGNATURE) == Subscriptions.APPROVAL_FOR_ALL
    ensures StripParams(CREATE_SIGNATURE) == Migration.CREATE_EVENT
  {
    SignaturesSpell();
    Spelled(Subscriptions.TRANSFER, "(address,address,uint256)");
    Spelled(Subscriptions.APPROVAL, "(address,address,uint256)");
    Spelled(Subscriptions.APPROVAL_FOR_ALL, "(address,address,bool)");
    Spelled(Migration.CREATE_EVENT, "(address,string,string,bool,bytes)");
  }

  /** What a pool subscribes to is what the listener reports, the event for all tokens only for pools of
      nonfungible tokens; the event of a factory is none of them. */
  lemma SubscribedIff(isFungible: bool, signature: string)
    requires signature in {TRANSFER_SIGNATURE, APPROVAL_SIGNATURE, APPROVAL_FOR_ALL_SIGNATURE, CREATE_SIGNATURE}
    ensures StripParams(signature) in Subscriptions.EventNames(isFungible) <==>
      signature in {TRANSFER_SIGNATURE, APPROVAL_SIGNATURE} || (!isFungible && signature == APPROVAL_FOR_ALL_SIGNATURE)
  {
    SignaturesStrip();
    SignaturesDiffer();
    Subscriptions.EventNamesDiffer();
    assert Migration.CREATE_EVENT[1] == 'o' && Subscriptions.TRANSFER[1] == 'r';
    assert Subscriptions.APPROVAL[1] == 'p' == Subscriptions.APPROVAL_FOR_ALL[1];
  }
}
